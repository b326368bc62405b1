/**
 The writer, the reader and the tap ring of src/capture.c, with their files as byte strings
 and a cursor.  Reading and writing themselves never fail here; a file may end anywhere.
 */
module Capture {
  import opened Crc32
  import opened Wire
  import opened CaptureFormat
  import opened CaptureRuns

  // ---------- header ----------

  const MAGIC: seq<byte> := [0x49, 0x4D, 0x55, 0x43, 0x41, 0x50, 0x31, 0]
  const FMT_VERSION: bv16 := 1

  datatype Header = Header(magic: seq<byte>, version: bv16, hdrLen: bv16, imuOdrHz: bv32, imuDriver: seq<byte>,
                           magDriver: seq<byte>, imudVersion: seq<byte>, t0WallNs: bv64, t0MonoNs: bv64,
                           imuOdrMhz: bv32, fileFlags: bv16)

  predicate Sized(h: Header) {
    |h.magic| == 8 && |h.imuDriver| == 16 && |h.magDriver| == 16 && |h.imudVersion| == 16
  }

  function Zeros(n: nat): (b: seq<byte>)
    ensures |b| == n
  {
    seq(n, i => 0)
  }

  /** hdr_encode. */
  function HdrEncode(h: Header): (b: seq<byte>)
    requires Sized(h)
    ensures |b| == HEADER_SIZE
  {
    h.magic + (Put16(h.version) + (Put16(h.hdrLen) + (Put32(h.imuOdrHz) + (h.imuDriver + (h.magDriver + (h.imudVersion
      + (Put64(h.t0WallNs) + (Put64(h.t0MonoNs) + (Put32(h.imuOdrMhz) + (Put16(h.fileFlags) + Zeros(18)))))))))))
  }

  /** hdr_decode. */
  function HdrDecode(b: seq<byte>): (h: Header)
    requires |b| >= HEADER_SIZE
    ensures Sized(h)
  {
    Header(b[0..8], Get16(b[8..]), Get16(b[10..]), Get32(b[12..]), b[16..32], b[32..48], b[48..64],
           Get64(b[64..]), Get64(b[72..]), Get32(b[80..]), Get16(b[84..]))
  }

  /** Peeling a piece of known size off the front. */
  lemma Drop(a: seq<byte>, b: seq<byte>, whole: seq<byte>, at: nat)
    requires at <= |whole| && whole[at..] == a + b
    ensures at + |a| <= |whole| && whole[at + |a|..] == b && whole[at..at + |a|] == a
  {}

  lemma LoadStored16(w: bv16, more: seq<byte>)
    ensures Get16(Put16(w) + more) == w
  {
    hide Put16, Get16;
    Get16Prefix(Put16(w), more);
    RoundTrip16(w);
  }

  lemma LoadStored64(w: bv64, more: seq<byte>)
    ensures Get64(Put64(w) + more) == w
  {
    hide Put64, Get64;
    Get64Prefix(Put64(w), more);
    RoundTrip64(w);
  }

  lemma HeaderRoundTrip(h: Header)
    requires Sized(h)
    ensures HdrDecode(HdrEncode(h)) == h
  {
    hide Put16, Get16, Put32, Get32, Put64, Get64, Zeros;
    var b := HdrEncode(h);
    var r9 := Put16(h.fileFlags) + Zeros(18);
    var r8 := Put32(h.imuOdrMhz) + r9;
    var r7 := Put64(h.t0MonoNs) + r8;
    var r6 := Put64(h.t0WallNs) + r7;
    var r5 := h.imudVersion + r6;
    var r4 := h.magDriver + r5;
    var r3 := h.imuDriver + r4;
    var r2 := Put32(h.imuOdrHz) + r3;
    var r1 := Put16(h.hdrLen) + r2;
    var r0 := Put16(h.version) + r1;
    Drop(h.magic, r0, b, 0);
    Drop(Put16(h.version), r1, b, 8);
    Drop(Put16(h.hdrLen), r2, b, 10);
    Drop(Put32(h.imuOdrHz), r3, b, 12);
    Drop(h.imuDriver, r4, b, 16);
    Drop(h.magDriver, r5, b, 32);
    Drop(h.imudVersion, r6, b, 48);
    Drop(Put64(h.t0WallNs), r7, b, 64);
    Drop(Put64(h.t0MonoNs), r8, b, 72);
    Drop(Put32(h.imuOdrMhz), r9, b, 80);
    LoadStored16(h.version, r1);
    LoadStored16(h.hdrLen, r2);
    LoadStored(h.imuOdrHz, r3);
    LoadStored64(h.t0WallNs, r7);
    LoadStored64(h.t0MonoNs, r8);
    LoadStored(h.imuOdrMhz, r9);
    LoadStored16(h.fileFlags, Zeros(18));
  }

  /** A driver or version string as snprintf leaves it in a field of 16: at most 15 characters, then zeros. */
  function Field16(s: seq<byte>): (f: seq<byte>)
    ensures |f| == 16
  {
    var t := if |s| > 15 then s[..15] else s;
    t + Zeros(16 - |t|)
  }

  // ---------- writer ----------

  class Writer {
    var file: seq<byte>
    var isOpen: bool
    var bytes: nat
    var nImu: nat
    var nMag: nat

    ghost predicate Valid()
      reads this
    {
      bytes == |file|
    }

    /** cap_writer_open. */
    constructor (imuOdrHz: bv32, imuOdrMhz: bv32, imuDriver: seq<byte>, magDriver: seq<byte>, version: seq<byte>,
                 t0WallNs: bv64, t0MonoNs: bv64)
      ensures Valid() && isOpen && nImu == 0 && nMag == 0
      ensures file == HdrEncode(Header(MAGIC, FMT_VERSION, 104, imuOdrHz, Field16(imuDriver), Field16(magDriver),
                                       Field16(version), t0WallNs, t0MonoNs, imuOdrMhz, HF_CRC32))
    {
      file := HdrEncode(Header(MAGIC, FMT_VERSION, 104, imuOdrHz, Field16(imuDriver), Field16(magDriver),
                               Field16(version), t0WallNs, t0MonoNs, imuOdrMhz, HF_CRC32));
      isOpen := true;
      bytes := HEADER_SIZE;
      nImu, nMag := 0, 0;
    }

    /** cap_write_rec. */
    method WriteRec(kind: byte, flags: byte, payload: seq<byte>, monoNs: bv64) returns (rc: int)
      requires Valid() && |payload| <= 65531
      modifies this`file, this`bytes
      ensures Valid() && rc == (if isOpen then 0 else -1)
      ensures file == old(file) + if isOpen then ItemBytes(Item(kind, flags, payload, monoNs)) else []
    {
      hide FrameEncode, Put32, ItemBytes, Update, LenField, LenOf;
      if !isOpen { return -1; }
      var fr := Frame(kind, flags | F_CRC32, LenField(|payload| + 4), monoNs);
      LenFieldLaw(fr, |payload| + 4);
      var fb := FrameEncode(fr);
      var crc := Crc32Update(INIT, fb);
      crc := Crc32Update(crc, payload);
      var tb := Put32(Final(crc));
      RecordBytes(Item(kind, flags, payload, monoNs), fb, crc);
      ghost var f0 := file;
      file := file + fb;
      if payload != [] { file := file + payload; }
      file := file + tb;
      assert file == f0 + (fb + payload + tb);
      bytes := bytes + FRAME_SIZE + LenOf(fr);
      rc := 0;
    }

    method WriteImu(r: Record) returns (rc: int)
      requires Valid() && r.Imu?
      modifies this
      ensures Valid() && isOpen == old(isOpen) && rc == (if isOpen then 0 else -1)
      ensures file == old(file) + if isOpen then Written([r]) else []
      ensures nImu == old(nImu) + (if isOpen then 1 else 0) && nMag == old(nMag)
    {
      hide ItemBytes, Payload;
      rc := WriteRec(REC_IMU, 0, Payload(r), r.monoNs);
      if rc != 0 { return -1; }
      nImu := nImu + 1;
      WrittenOne(r);
    }

    method WriteMag(r: Record) returns (rc: int)
      requires Valid() && r.Mag?
      modifies this
      ensures Valid() && isOpen == old(isOpen) && rc == (if isOpen then 0 else -1)
      ensures file == old(file) + if isOpen then Written([r]) else []
      ensures nMag == old(nMag) + (if isOpen then 1 else 0) && nImu == old(nImu)
    {
      hide ItemBytes, Payload;
      var flags := if r.valid then MAGF_VALID else 0;
      rc := WriteRec(REC_MAG, flags, Payload(r), r.monoNs);
      if rc != 0 { return -1; }
      nMag := nMag + 1;
      WrittenOne(r);
    }

    method WriteMark(r: Record) returns (rc: int)
      requires Valid() && r.Mark?
      modifies this
      ensures Valid() && isOpen == old(isOpen) && rc == (if isOpen then 0 else -1)
      ensures file == old(file) + if isOpen then Written([r]) else []
      ensures nMag == old(nMag) && nImu == old(nImu)
    {
      hide ItemBytes, Payload;
      rc := WriteRec(REC_MARK, 0, Payload(r), r.monoNs);
      WrittenOne(r);
    }

    method Close()
      modifies this`isOpen
      ensures !isOpen
    {
      isOpen := false;
    }
  }

  lemma RecordBytes(it: Item, fb: seq<byte>, crc: bv32)
    requires |it.payload| <= 65531 && fb == FrameEncode(FrameOf(it))
    requires crc == Update(Update(INIT, fb), it.payload)
    ensures ItemBytes(it) == fb + it.payload + Put32(Final(crc))
  {
    hide FrameEncode, FrameOf, Put32, Update, LenField;
    UpdateAppend(INIT, fb, it.payload);
  }

  lemma WrittenOne(r: Record)
    ensures Written([r]) == ItemBytes(ItemOf(r))
  {
    hide ItemBytes;
    assert [r][1..] == [];
    assert ItemsOf([r]) == [ItemOf(r)];
    assert [ItemOf(r)][1..] == [];
    assert AllBytes([ItemOf(r)]) == ItemBytes(ItemOf(r)) + AllBytes([]);
  }

  lemma WrittenCons(r: Record, rest: seq<Record>)
    ensures Written([r] + rest) == ItemBytes(ItemOf(r)) + Written(rest)
  {
    hide ItemBytes, ItemOf;
    assert ([r] + rest)[1..] == rest;
    assert ItemsOf([r] + rest)[1..] == ItemsOf(rest);
  }

  /** Writing in turn is writing the list. */
  lemma {:induction false} WrittenAppend(a: seq<Record>, b: seq<Record>)
    ensures Written(a + b) == Written(a) + Written(b)
  {
    hide ItemBytes, ItemOf, Written;
    if a == [] {
      WrittenNone();
      assert a + b == b;
    } else {
      WrittenAppend(a[1..], b);
      WrittenCons(a[0], a[1..]);
      WrittenCons(a[0], a[1..] + b);
      assert a == [a[0]] + a[1..] && a + b == [a[0]] + (a[1..] + b);
    }
  }

  // ---------- reader ----------

  const ERR_IO := -1
  const ERR_FORMAT := -2
  const ERR_CRC := -3

  /** What cap_reader_next returns from here: a record and where it leaves off, or how the file ends. */
  datatype Outcome = One(record: Record, rest: seq<byte>) | Finished(status: Status)

  function NextOf(promised: bool, s: seq<byte>): Outcome
    decreases |s|
  {
    match StepOf(promised, s)
    case Ended => Finished(Eof)
    case Damaged => Finished(CrcError)
    case Deliver(r, rest) => One(r, rest)
    case Skip(rest) => if |rest| < |s| then NextOf(promised, rest) else Finished(Eof)
  }

  lemma {:induction false} NextReads(promised: bool, s: seq<byte>)
    ensures match NextOf(promised, s)
            case One(r, rest) => |rest| < |s| && ReadAll(promised, s) == ([r] + ReadAll(promised, rest).0, ReadAll(promised, rest).1)
            case Finished(st) => ReadAll(promised, s) == ([], st)
    decreases |s|
  {
    hide StepOf;
    StepAdvances(promised, s);
    match StepOf(promised, s)
    case Skip(rest) => NextReads(promised, rest);
    case _ =>
  }

  predicate Promised(h: Header) {
    h.fileFlags & HF_CRC32 != 0
  }

  /** The header is one this reader accepts. */
  predicate Opens(h: Header) {
    h.magic == MAGIC && h.version == FMT_VERSION && h.hdrLen as nat >= HEADER_SIZE
  }

  class Reader {
    const file: seq<byte>
    var pos: nat
    var hdr: Header
    var isOpen: bool

    constructor (content: seq<byte>)
      ensures file == content && !isOpen && pos == 0
    {
      file := content;
      pos := 0;
      isOpen := false;
      hdr := Header([], 0, 0, 0, [], [], [], 0, 0, 0, 0);
    }

    /** The bytes ahead of the cursor. */
    ghost function Ahead(): seq<byte>
      reads this
    {
      Past(file, pos)
    }

    /** fread of n bytes: all of them, or none and the cursor at the end. */
    method Fread(n: nat) returns (ok: bool, b: seq<byte>)
      requires n > 0
      modifies this`pos
      ensures ok <==> n <= |old(Ahead())|
      ensures ok ==> b == old(Ahead())[..n] && Ahead() == old(Ahead())[n..]
      ensures !ok ==> Ahead() == []
    {
      if pos + n <= |file| {
        b := file[pos..pos + n];
        pos := pos + n;
        ok := true;
      } else {
        if pos < |file| { pos := |file|; }
        ok, b := false, [];
      }
    }

    /** cap_reader_open. */
    method Open() returns (rc: int)
      modifies this
      ensures rc == 0 <==> |file| >= HEADER_SIZE && Opens(HdrDecode(file))
      ensures rc == 0 ==> isOpen && hdr == HdrDecode(file) && Ahead() == Past(file, hdr.hdrLen as nat)
      ensures rc != 0 ==> rc == ERR_FORMAT && !isOpen
    {
      hide HdrDecode, Opens;
      pos := 0;
      isOpen := true;
      var ok, hb := Fread(HEADER_SIZE);
      if !ok {
        isOpen := false;
        return ERR_FORMAT;
      }
      HeaderAhead(file, hb);
      hdr := HdrDecode(hb);
      if !Opens(hdr) {
        isOpen := false;
        return ERR_FORMAT;
      }
      pos := hdr.hdrLen as nat;
      rc := 0;
    }

    /** read_payload: fill dst, and seek past what this reader does not know. */
    method ReadPayload(dst: array<byte>, len: nat) returns (rc: int)
      requires dst.Length <= len
      modifies this`pos, dst
      ensures rc == if dst.Length <= |old(Ahead())| then 1 else 0
      ensures rc == 1 ==> dst[..] == old(Ahead())[..dst.Length] && Ahead() == Past(old(Ahead()), len)
    {
      hide Past;
      var want := if len < dst.Length then len else dst.Length;
      ghost var s := Ahead();
      if want > 0 {
        var ok, b := Fread(want);
        if !ok { return 0; }
        forall i | 0 <= i < want { dst[i] := b[i]; }
        assert dst[..] == b;
      } else {
        assert s[..0] == dst[..] && s[0..] == s;
      }
      PastWithin(s, want);
      PastPast(s, want, len - want);
      if len > want {
        PastPast(file, pos, len - want);
        pos := pos + (len - want);
      } else {
        assert want == len;
      }
      rc := 1;
    }

    /** Keep as much of a chunk as dst still has room for. */
    method Keep(dst: array<byte>, got: nat, scratch: seq<byte>, ghost s: seq<byte>, ghost done: nat) returns (now: nat)
      requires done + |scratch| <= |s| && scratch == s[done..done + |scratch|]
      requires got == (if done < dst.Length then done else dst.Length) && dst[..got] == s[..got]
      modifies dst
      ensures now == if done + |scratch| < dst.Length then done + |scratch| else dst.Length
      ensures dst[..now] == s[..now]
    {
      now := got;
      if got < dst.Length {
        var take := if dst.Length - got < |scratch| then dst.Length - got else |scratch|;
        assert forall k :: 0 <= k < got ==> dst[k] == dst[..got][k] == s[k];
        forall i | 0 <= i < take { dst[got + i] := scratch[i]; }
        now := got + take;
        forall k | 0 <= k < now ensures dst[k] == s[k] {
          if k >= got { assert dst[got + (k - got)] == scratch[k - got] == s[done + (k - got)]; }
        }
        assert dst[..now] == s[..now];
      }
    }

    /** read_payload_crc: stream the body through a 128-byte scratch buffer under a running CRC. */
    method ReadPayloadCrc(dst: array<byte>, len: nat, fb: seq<byte>) returns (rc: int)
      requires dst.Length + 4 <= len
      modifies this`pos, dst
      ensures rc == if len > |old(Ahead())| then 0 else if Codeword(fb + old(Ahead())[..len]) then 1 else -2
      ensures rc == 1 ==> dst[..] == old(Ahead())[..dst.Length] && Ahead() == old(Ahead())[len..]
    {
      hide Get32, Update, Codeword, Past, Final;
      ghost var s := Ahead();
      var body := len - 4;
      var crc := Crc32Update(INIT, fb);
      var got := 0;
      ghost var done := 0;
      assert fb + s[..0] == fb && s[0..] == s;
      while body > 0
        invariant 0 <= body <= len - 4 && done == len - 4 - body && done <= |s| && Ahead() == s[done..]
        invariant crc == Update(INIT, fb + s[..done])
        invariant got == if done < dst.Length then done else dst.Length
        invariant dst[..got] == s[..got]
        decreases body
      {
        var chunk := if body < 128 then body else 128;
        var ok, scratch := Fread(chunk);
        if !ok { return 0; }
        TakeMore(s, done, chunk, fb, scratch);
        crc := Crc32Update(crc, scratch);
        got := Keep(dst, got, scratch, s, done);
        body := body - chunk;
        done := done + chunk;
      }
      var ok, tb := Fread(4);
      if !ok { return 0; }
      TakeTail(s, len, tb);
      CrcTail(fb, s, len, tb);
      rc := if Final(crc) == Get32(tb) then 1 else -2;
    }

    /** cap_read_payload. */
    method CapReadPayload(fb: seq<byte>, fr: Frame, dst: array<byte>) returns (rc: int)
      requires |fb| == FRAME_SIZE && fr == FrameDecode(fb) && dst.Length == KnownSize(fr.kind)
      modifies this`pos, dst
      ensures var step := StepOf(Promised(hdr), fb + old(Ahead()));
              match rc
              case 1 => step == Taken(fr, dst[..], Ahead())
              case 0 => step == Ended
              case _ => rc == -2 && step == Damaged
    {
      hide Get32, Codeword, Parse, Sealed, FrameDecode, Taken, Known, Promised, KnownSize, LenOf;
      ghost var s := Ahead();
      FrameOfPrefix(fb, s);
      var crc := Sealed(fr);
      var min := dst.Length + if crc then 4 else 0;
      if !crc && Promised(hdr) { return -2; }
      if (LenOf(fr)) < min { return 0; }
      StepShape(Promised(hdr), fb, fr, s);
      if crc {
        rc := ReadPayloadCrc(dst, LenOf(fr), fb);
      } else {
        rc := ReadPayload(dst, LenOf(fr));
      }
      if rc == 1 { TakenKnown(fr, dst[..], s, Ahead()); }
    }

    /** cap_reader_next. */
    method Next() returns (rc: int, out: Record)
      modifies this`pos
      ensures !isOpen ==> rc == ERR_IO && pos == old(pos)
      ensures isOpen ==> match NextOf(Promised(hdr), old(Ahead()))
                         case One(r, rest) => rc == 1 && out == r && Ahead() == rest
                         case Finished(st) => rc == if st == Eof then 0 else ERR_CRC
    {
      hide Parse, FrameDecode, StepOf, Known, KnownSize, Promised, LenOf;
      out := Mark(0, 0);
      if !isOpen { return ERR_IO, out; }
      while true
        invariant NextOf(Promised(hdr), Ahead()) == NextOf(Promised(hdr), old(Ahead()))
        decreases |Ahead()|
      {
        ghost var s := Ahead();
        var ok, fb := Fread(FRAME_SIZE);
        if !ok {
          ShortStep(Promised(hdr), s);
          return 0, out;
        }
        assert fb + Ahead() == s;
        var fr := FrameDecode(fb);
        var rb := new byte[KnownSize(fr.kind)];
        rc := CapReadPayload(fb, fr, rb);
        StepAdvances(Promised(hdr), s);
        if rc <= 0 { return (if rc == -2 then ERR_CRC else 0), out; }
        if Known(fr.kind) {
          out := Parse(fr, rb[..]);
          WholeTaken(fr, rb[..], Ahead());
          return 1, out;
        }
      }
    }

    /** Reading until the reader stops gives everything the format says the file holds. */
    method ReadEverything() returns (recs: seq<Record>, rc: int)
      requires isOpen
      modifies this`pos
      ensures recs == ReadAll(Promised(hdr), old(Ahead())).0
      ensures rc == if ReadAll(Promised(hdr), old(Ahead())).1 == Eof then 0 else ERR_CRC
    {
      hide ReadAll, NextOf, Promised;
      recs := [];
      while true
        invariant recs + ReadAll(Promised(hdr), Ahead()).0 == ReadAll(Promised(hdr), old(Ahead())).0
        invariant ReadAll(Promised(hdr), Ahead()).1 == ReadAll(Promised(hdr), old(Ahead())).1
        decreases |Ahead()|
      {
        NextReads(Promised(hdr), Ahead());
        ghost var more := ReadAll(Promised(hdr), Ahead()).0;
        var r;
        rc, r := Next();
        if rc != 1 {
          assert more == [];
          return;
        }
        assert recs + more == (recs + [r]) + more[1..];
        recs := recs + [r];
      }
    }

    /** cap_reader_rewind. */
    method Rewind() returns (rc: int)
      modifies this`pos
      ensures isOpen ==> rc == 0 && Ahead() == Past(file, hdr.hdrLen as nat)
      ensures !isOpen ==> rc == -1
    {
      if !isOpen { return -1; }
      pos := hdr.hdrLen as nat;
      rc := 0;
    }
  }

  lemma PastPast(s: seq<byte>, m: nat, n: nat)
    ensures Past(Past(s, m), n) == Past(s, m + n)
  {}

  lemma PastWithin(s: seq<byte>, n: nat)
    requires n <= |s|
    ensures Past(s, n) == s[n..]
  {}

  lemma HeaderAhead(file: seq<byte>, hb: seq<byte>)
    requires HEADER_SIZE <= |file| && hb == file[..HEADER_SIZE]
    ensures HdrDecode(hb) == HdrDecode(file)
  {
    hide Get16, Get32;
    assert file[8..] == hb[8..] + file[HEADER_SIZE..];
    assert file[10..] == hb[10..] + file[HEADER_SIZE..];
    assert file[12..] == hb[12..] + file[HEADER_SIZE..];
    assert file[64..] == hb[64..] + file[HEADER_SIZE..];
    assert file[72..] == hb[72..] + file[HEADER_SIZE..];
    assert file[80..] == hb[80..] + file[HEADER_SIZE..];
    assert file[84..] == hb[84..] + file[HEADER_SIZE..];
    hide Get64;
    Get16Prefix(hb[8..], file[HEADER_SIZE..]);
    Get16Prefix(hb[10..], file[HEADER_SIZE..]);
    Get32Prefix(hb[12..], file[HEADER_SIZE..]);
    Get64Prefix(hb[64..], file[HEADER_SIZE..]);
    Get64Prefix(hb[72..], file[HEADER_SIZE..]);
    Get32Prefix(hb[80..], file[HEADER_SIZE..]);
    Get16Prefix(hb[84..], file[HEADER_SIZE..]);
  }

  lemma TakeMore(s: seq<byte>, done: nat, n: nat, fb: seq<byte>, scratch: seq<byte>)
    requires done + n <= |s| && scratch == s[done..][..n]
    ensures scratch == s[done..done + n] && s[done..][n..] == s[done + n..]
    ensures Update(INIT, fb + s[..done + n]) == Update(Update(INIT, fb + s[..done]), scratch)
  {
    hide Update;
    UpdateAppend(INIT, fb + s[..done], scratch);
    assert fb + s[..done + n] == (fb + s[..done]) + scratch;
  }

  lemma TakeTail(s: seq<byte>, len: nat, tb: seq<byte>)
    requires 4 <= len <= |s| && tb == s[len - 4..][..4]
    ensures tb == s[len - 4..len] && s[len - 4..][4..] == s[len..]
  {}

  lemma CrcTail(fb: seq<byte>, s: seq<byte>, len: nat, tb: seq<byte>)
    requires 4 <= len <= |s| && tb == s[len - 4..len]
    ensures Codeword(fb + s[..len]) <==> Final(Update(INIT, fb + s[..len - 4])) == Get32(tb)
  {
    hide Get32, Update;
    var b := fb + s[..len];
    assert b[..|b| - 4] == fb + s[..len - 4] && b[|b| - 4..] == tb;
  }

  lemma FrameOfPrefix(fb: seq<byte>, s: seq<byte>)
    requires |fb| == FRAME_SIZE
    ensures FrameDecode(fb + s) == FrameDecode(fb)
  {
    hide FrameDecode, LenOf;
    assert (fb + s)[..FRAME_SIZE] == fb;
    FramePrefix(fb + s, FRAME_SIZE);
  }

  lemma StepShape(promised: bool, fb: seq<byte>, fr: Frame, s: seq<byte>)
    requires |fb| == FRAME_SIZE && fr == FrameDecode(fb)
    requires (Sealed(fr) || !promised) && LenOf(fr) >= Min(fr.kind, Sealed(fr))
    ensures var len := LenOf(fr);
            StepOf(promised, fb + s) ==
              if Sealed(fr) then
                if |s| < len then Ended
                else if !Codeword(fb + s[..len]) then Damaged
                else Taken(fr, s, s[len..])
              else if |s| < KnownSize(fr.kind) then Ended
              else Taken(fr, s, Past(s, len))
  {
    hide Sealed, FrameDecode, Codeword, Taken, KnownSize, SealedStep, PlainStep, LenOf;
    FrameOfPrefix(fb, s);
    if Sealed(fr) { SealedShape(fb, fr, LenOf(fr), s); } else { PlainShape(fb, fr, LenOf(fr), s); }
  }

  lemma SealedShape(fb: seq<byte>, fr: Frame, len: nat, s: seq<byte>)
    requires |fb| == FRAME_SIZE && len >= KnownSize(fr.kind) + 4
    ensures SealedStep(fr, len, fb + s) == if |s| < len then Ended
                                           else if !Codeword(fb + s[..len]) then Damaged
                                           else Taken(fr, s, s[len..])
  {
    hide Codeword, KnownSize, Taken;
    var t := fb + s;
    assert t[FRAME_SIZE..] == s;
    if len <= |s| {
      assert t[..FRAME_SIZE + len] == fb + s[..len];
      assert t[FRAME_SIZE + len..] == s[len..];
    }
  }

  lemma PlainShape(fb: seq<byte>, fr: Frame, len: nat, s: seq<byte>)
    requires |fb| == FRAME_SIZE
    ensures PlainStep(fr, len, fb + s) == if |s| < KnownSize(fr.kind) then Ended else Taken(fr, s, Past(s, len))
  {
    hide KnownSize, Taken, Past;
    assert (fb + s)[FRAME_SIZE..] == s;
    PastFrame(fb, s, len);
  }

  lemma PastFrame(fb: seq<byte>, s: seq<byte>, len: nat)
    requires |fb| == FRAME_SIZE
    ensures Past(fb + s, FRAME_SIZE + len) == Past(s, len)
  {}

  lemma TakenKnown(f: Frame, b: seq<byte>, s: seq<byte>, rest: seq<byte>)
    requires |b| == KnownSize(f.kind) <= |s| && b == s[..|b|]
    ensures Taken(f, b, rest) == Taken(f, s, rest)
  {
    hide Parse;
    assert b[..|b|] == b;
  }

  lemma WholeTaken(f: Frame, b: seq<byte>, rest: seq<byte>)
    requires |b| == KnownSize(f.kind) && Known(f.kind)
    ensures Taken(f, b, rest) == Deliver(Parse(f, b), rest)
  {
    hide Parse;
    assert b[..|b|] == b;
  }

  lemma ShortStep(promised: bool, s: seq<byte>)
    requires |s| < FRAME_SIZE
    ensures StepOf(promised, s) == Ended
  {}

  // ---------- tap ring ----------

  const RING_LEN := 1024

  /** The i-th place after the tail. */
  function Slot(tail: nat, i: nat): (k: nat)
    ensures k < RING_LEN
  {
    (tail + i) % RING_LEN
  }

  /** The reader threads' ring; one call is one critical section. */
  class Ring<T(0)> {
    const buf: array<T>
    var head: nat
    var tail: nat
    var count: nat
    var dropped: nat

    ghost predicate Valid()
      reads this
    {
      buf.Length == RING_LEN && tail < RING_LEN && count <= RING_LEN && head == Slot(tail, count)
    }

    /** The records held, oldest first. */
    ghost function Held(): (s: seq<T>)
      requires Valid()
      reads this, buf
      ensures |s| == count
    {
      seq(count, i requires 0 <= i < count reads this, buf => buf[Slot(tail, i)])
    }

    constructor ()
      ensures Valid() && Held() == [] && dropped == 0 && fresh(buf)
    {
      buf := new T[RING_LEN];
      head, tail, count, dropped := 0, 0, 0, 0;
    }

    /** ring_push: 0 stored, 1 dropped because the ring is full, and then the newest is what goes. */
    method Push(rec: T) returns (full: bool)
      requires Valid()
      modifies this`head, this`count, this`dropped, buf
      ensures Valid() && full == (|old(Held())| == RING_LEN)
      ensures Held() == if full then old(Held()) else old(Held()) + [rec]
      ensures dropped == old(dropped) + if full then 1 else 0
    {
      hide Slot;
      full := count == RING_LEN;
      if full {
        dropped := dropped + 1;
      } else {
        ghost var before := Held();
        buf[head] := rec;
        NextAfter(tail, count);
        head := (head + 1) % RING_LEN;
        count := count + 1;
        forall i | 0 <= i < count ensures Held()[i] == (before + [rec])[i] {
          if i < count - 1 { SlotsApart(tail, i, count - 1); }
        }
        assert Held() == before + [rec];
      }
    }

    /** cap_ring_pop: the oldest records, at most max of them, in order. */
    method Pop(max: nat) returns (out: seq<T>)
      requires Valid()
      modifies this`tail, this`count
      ensures Valid() && old(Held()) == out + Held()
      ensures |out| == if max < |old(Held())| then max else |old(Held())|
    {
      hide Slot;
      out := [];
      ghost var before := Held();
      while |out| < max && count > 0
        invariant Valid() && before == out + Held() && |out| <= max
        decreases count
      {
        var r := PopOne();
        Handed(out, r, Held());
        out := out + [r];
      }
    }

    method PopOne() returns (r: T)
      requires Valid() && count > 0
      modifies this`tail, this`count
      ensures Valid() && old(Held()) == [r] + Held() && count == old(count) - 1
    {
      FirstSlot(tail);
      hide Slot;
      ghost var h := Held();
      r := buf[tail];
      ghost var t := tail;
      NextSlot(t, count - 1);
      tail := (tail + 1) % RING_LEN;
      count := count - 1;
      forall i | 0 <= i < count ensures Held()[i] == h[i + 1] {
        NextSlot(t, i);
      }
      assert h == [r] + Held();
    }
  }

  lemma Handed<T>(out: seq<T>, r: T, held: seq<T>)
    ensures out + ([r] + held) == (out + [r]) + held
  {}

  lemma FirstSlot(tail: nat)
    requires tail < RING_LEN
    ensures Slot(tail, 0) == tail
  {}

  lemma NextSlot(tail: nat, i: nat)
    requires tail < RING_LEN
    ensures Slot((tail + 1) % RING_LEN, i) == Slot(tail, i + 1)
  {}

  lemma NextAfter(tail: nat, i: nat)
    requires tail < RING_LEN
    ensures (Slot(tail, i) + 1) % RING_LEN == Slot(tail, i + 1)
  {}

  lemma SlotsApart(tail: nat, i: nat, j: nat)
    requires tail < RING_LEN && i < j < RING_LEN
    ensures Slot(tail, i) != Slot(tail, j)
  {}

  // ---------- writer to reader ----------

  lemma WriterPromises()
    ensures Promised(Header(MAGIC, FMT_VERSION, 104, 0, [], [], [], 0, 0, 0, HF_CRC32))
    ensures (104 as bv16) as nat == HEADER_SIZE
  {}

  /** Write any records, close, open and read: the same records come back, then end of file. */
  method WriteThenRead(recs: seq<Record>, imuOdrHz: bv32, imuOdrMhz: bv32, imuDriver: seq<byte>, magDriver: seq<byte>,
                       version: seq<byte>, t0WallNs: bv64, t0MonoNs: bv64)
    returns (hdr: Header, back: seq<Record>, again: seq<Record>, rc: int)
    ensures hdr == Header(MAGIC, FMT_VERSION, 104, imuOdrHz, Field16(imuDriver), Field16(magDriver),
                          Field16(version), t0WallNs, t0MonoNs, imuOdrMhz, HF_CRC32)
    ensures back == recs && again == recs && rc == 0
  {
    hide Written, HdrEncode, HdrDecode, ReadAll, Promised, Opens;
    var w := new Writer(imuOdrHz, imuOdrMhz, imuDriver, magDriver, version, t0WallNs, t0MonoNs);
    ghost var header := w.file;
    assert recs[..0] == [];
    WrittenNone();
    for i := 0 to |recs|
      invariant w.Valid() && w.isOpen && w.file == header + Written(recs[..i])
    {
      var k;
      match recs[i] {
        case Imu(_, _, _, _, _, _) => k := w.WriteImu(recs[i]);
        case Mag(_, _, _, _) => k := w.WriteMag(recs[i]);
        case Mark(_, _) => k := w.WriteMark(recs[i]);
      }
      assert recs[..i + 1] == recs[..i] + [recs[i]];
      WrittenAppend(recs[..i], [recs[i]]);
    }
    assert recs[..|recs|] == recs;
    w.Close();
    var r := new Reader(w.file);
    ghost var h := Header(MAGIC, FMT_VERSION, 104, imuOdrHz, Field16(imuDriver), Field16(magDriver), Field16(version),
                          t0WallNs, t0MonoNs, imuOdrMhz, HF_CRC32);
    OpensAs(h, Written(recs));
    rc := r.Open();
    hdr := r.hdr;
    back, rc := r.ReadEverything();
    rc := r.Rewind();
    again, rc := r.ReadEverything();
    RoundTrip(recs);
  }

  lemma WrittenNone()
    ensures Written([]) == []
  {}

  /** A file that begins with a header of this version opens at the first byte after it. */
  lemma OpensAs(h: Header, body: seq<byte>)
    requires Sized(h) && h.magic == MAGIC && h.version == FMT_VERSION && h.hdrLen == 104 && h.fileFlags == HF_CRC32
    ensures HdrDecode(HdrEncode(h) + body) == h && Promised(h)
    ensures Opens(h) && h.hdrLen as nat == HEADER_SIZE && Past(HdrEncode(h) + body, HEADER_SIZE) == body
  {
    hide HdrEncode, HdrDecode;
    WriterPromises();
    HeaderRoundTrip(h);
    assert (HdrEncode(h) + body)[..HEADER_SIZE] == HdrEncode(h);
    HeaderAhead(HdrEncode(h) + body, HdrEncode(h));
  }
}
