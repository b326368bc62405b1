/**
 The 288-byte stream of lib/libimud.c and lib/imud_client.h: when a packet is accepted,
 what decoding it keeps, and what a client that reads the stream in arbitrary pieces,
 with timeouts and errors in between, delivers.
 */
module StreamClient {
  import opened Crc32
  import opened Wire

  const PACKET_SIZE := 288
  const CRC_AT := 284
  const MAGIC: bv32 := 0x494D_5544
  const VERSION: bv16 := 18

  // ---------- validation ----------

  predicate PacketOk(b: seq<byte>) {
    && |b| == PACKET_SIZE
    && Get32(b) == MAGIC
    && Get16(b[4..]) == VERSION
    && Crc(b[..CRC_AT]) == Get32(b[CRC_AT..])
  }

  /** packet_ok, and imud_packet_valid. */
  method CheckPacket(b: seq<byte>) returns (ok: bool)
    ensures ok <==> PacketOk(b)
  {
    hide Get32, Get16, Crc;
    if |b| != PACKET_SIZE { return false; }
    if Get32(b) != MAGIC { return false; }
    if Get16(b[4..]) != VERSION { return false; }
    var crc := Get32(b[CRC_AT..]);
    var c := Crc32Ieee(b[..CRC_AT]);
    ok := c == crc;
  }

  /** A valid packet changed anywhere within 32 consecutive bits, its CRC field included, is refused. */
  lemma BurstRejected(a: seq<byte>, b: seq<byte>, i: nat)
    requires PacketOk(a) && BurstError(a, b, i)
    ensures !PacketOk(b)
  {
    hide Get32, Get16, Crc, BurstError;
    assert |b| == |a| by { BurstSameLength(a, b, i); }
    OkIsCodeword(a);
    BurstBreaksCodeword(a, b, i);
    if PacketOk(b) { OkIsCodeword(b); }
  }

  lemma BurstSameLength(a: seq<byte>, b: seq<byte>, i: nat)
    requires BurstError(a, b, i)
    ensures |a| == |b|
  {}

  lemma OkIsCodeword(b: seq<byte>)
    requires PacketOk(b)
    ensures Codeword(b)
  {
    hide Get32, Get16, Crc;
    assert |b| - 4 == CRC_AT;
  }

  // ---------- decoding ----------

  /** imud_packet_t with its 32-bit fields as bit patterns: `imu` is accel_x to cov[8], `rest` is
      declination_deg to nis_mag. */
  datatype Packet = Packet(magic: bv32, version: bv16, flags: bv16, tsWallNs: bv64, tsTaiNs: bv64,
                           tsChipTicks: bv32, anchorGen: bv32, imu: seq<bv32>, imuSeq: bv32,
                           rest: seq<bv32>, flagsExt: bv32, reserved: seq<byte>, crc32: bv32)

  function Words(b: seq<byte>, at: nat, n: nat): (w: seq<bv32>)
    requires at + 4 * n <= |b|
    ensures |w| == n
  {
    seq(n, k requires 0 <= k < n => Get32(b[at + 4 * k..]))
  }

  function Decode(b: seq<byte>): Packet
    requires |b| == PACKET_SIZE
  {
    Packet(Get32(b), Get16(b[4..]), Get16(b[6..]), Get64(b[8..]), Get64(b[16..]),
           Get32(b[24..]), Get32(b[28..]), Words(b, 32, 37), Get32(b[180..]),
           Words(b, 184, 22), Get32(b[272..]), b[276..284], Get32(b[284..]))
  }

  function PutWords(w: seq<bv32>): (b: seq<byte>)
    ensures |b| == 4 * |w|
  {
    if w == [] then [] else Put32(w[0]) + PutWords(w[1..])
  }

  function Encode(p: Packet): seq<byte> {
    Put32(p.magic) + Put16(p.version) + Put16(p.flags) + Put64(p.tsWallNs) + Put64(p.tsTaiNs)
      + Put32(p.tsChipTicks) + Put32(p.anchorGen) + PutWords(p.imu) + Put32(p.imuSeq)
      + PutWords(p.rest) + Put32(p.flagsExt) + p.reserved + Put32(p.crc32)
  }

  lemma PutGetAt32(b: seq<byte>, at: nat)
    requires at + 4 <= |b|
    ensures Put32(Get32(b[at..])) == b[at..at + 4]
  {
    hide Put32, Get32;
    PutGet32(b[at..at + 4]);
    assert b[at..] == b[at..at + 4] + b[at + 4..];
    Get32Prefix(b[at..at + 4], b[at + 4..]);
  }

  lemma PutGetAt16(b: seq<byte>, at: nat)
    requires at + 2 <= |b|
    ensures Put16(Get16(b[at..])) == b[at..at + 2]
  {
    hide Pair, Low8, High8;
    BytesOfPair(b[at], b[at + 1]);
  }

  lemma PutGetAt64(b: seq<byte>, at: nat)
    requires at + 8 <= |b|
    ensures Put64(Get64(b[at..])) == b[at..at + 8]
  {
    hide Put32, Get32, Low32, High32, Join64;
    HalvesOf(Get32(b[at..]), Get32(b[at + 4..]));
    assert b[at..][4..] == b[at + 4..];
    PutGetAt32(b, at);
    PutGetAt32(b, at + 4);
    assert b[at..at + 8] == b[at..at + 4] + b[at + 4..at + 8];
  }

  lemma {:induction false} PutWordsGet(b: seq<byte>, at: nat, n: nat)
    requires at + 4 * n <= |b|
    ensures PutWords(Words(b, at, n)) == b[at..at + 4 * n]
    decreases n
  {
    hide Put32, Get32;
    if n > 0 {
      PutGetAt32(b, at);
      PutWordsGet(b, at + 4, n - 1);
      assert Words(b, at, n)[1..] == Words(b, at + 4, n - 1) by { WordsTail(b, at, n); }
      assert b[at..at + 4 * n] == b[at..at + 4] + b[at + 4..at + 4 * n];
    }
  }

  lemma WordsTail(b: seq<byte>, at: nat, n: nat)
    requires n > 0 && at + 4 * n <= |b|
    ensures Words(b, at, n)[1..] == Words(b, at + 4, n - 1)
  {
    hide Get32;
    forall k | 0 <= k < n - 1 ensures Words(b, at, n)[1..][k] == Words(b, at + 4, n - 1)[k] {
      assert at + 4 * (k + 1) == at + 4 + 4 * k;
    }
  }

  lemma Glue(b: seq<byte>, i: nat, j: nat)
    requires i <= j <= |b|
    ensures b[..i] + b[i..j] == b[..j]
  {}

  /** Decoding reads every byte of the packet once: encoding its result gives the packet back. */
  lemma DecodeLosesNothing(b: seq<byte>)
    requires |b| == PACKET_SIZE
    ensures Encode(Decode(b)) == b
  {
    hide Front, Back;
    FrontBack(Decode(b));
    FrontBytes(b);
    BackBytes(b);
    Glue(b, 180, 288);
    assert b[..288] == b;
  }

  /** The fields before imu_seq, and those from it on. */
  function Front(p: Packet): seq<byte> {
    Put32(p.magic) + Put16(p.version) + Put16(p.flags) + Put64(p.tsWallNs) + Put64(p.tsTaiNs)
      + Put32(p.tsChipTicks) + Put32(p.anchorGen) + PutWords(p.imu)
  }

  function Back(p: Packet): seq<byte> {
    Put32(p.imuSeq) + PutWords(p.rest) + Put32(p.flagsExt) + p.reserved + Put32(p.crc32)
  }

  lemma FrontBack(p: Packet)
    ensures Encode(p) == Front(p) + Back(p)
  {
    hide Put16, Put32, Put64, PutWords;
  }

  lemma FrontBytes(b: seq<byte>)
    requires |b| == PACKET_SIZE
    ensures Front(Decode(b)) == b[..180]
  {
    hide Put16, Put32, Put64, PutWords, Words, Get16, Get32, Get64;
    assert b[0..] == b;
    PutGetAt32(b, 0);
    PutGetAt16(b, 4); PutGetAt16(b, 6);
    PutGetAt64(b, 8); PutGetAt64(b, 16);
    PutGetAt32(b, 24); PutGetAt32(b, 28);
    PutWordsGet(b, 32, 37);
    Glue(b, 4, 6); Glue(b, 6, 8); Glue(b, 8, 16); Glue(b, 16, 24); Glue(b, 24, 28); Glue(b, 28, 32); Glue(b, 32, 180);
    assert b[..4] == b[0..4];
  }

  lemma BackBytes(b: seq<byte>)
    requires |b| == PACKET_SIZE
    ensures Back(Decode(b)) == b[180..288]
  {
    hide Put16, Put32, Put64, PutWords, Words, Get16, Get32, Get64;
    PutGetAt32(b, 180);
    PutWordsGet(b, 184, 22);
    PutGetAt32(b, 272); PutGetAt32(b, 284);
    Slices(b, 180, 184, 272); Slices(b, 180, 272, 276); Slices(b, 180, 276, 284); Slices(b, 180, 284, 288);
  }

  lemma Slices(b: seq<byte>, i: nat, j: nat, k: nat)
    requires i <= j <= k <= |b|
    ensures b[i..j] + b[j..k] == b[i..k]
  {}

  /** A run of 32-bit loads through the moving pointer. */
  method LoadWords(b: seq<byte>, p: nat, n: nat) returns (w: seq<bv32>, q: nat)
    requires p + 4 * n <= |b|
    ensures w == Words(b, p, n) && q == p + 4 * n
  {
    hide Get32;
    w, q := [], p;
    for i := 0 to n
      invariant q == p + 4 * i && |w| == i
      invariant forall k :: 0 <= k < i ==> w[k] == Get32(b[p + 4 * k..])
    {
      w := w + [Get32(b[q..])];
      q := q + 4;
    }
  }

  /** imud_packet_decode. */
  method DecodePacket(b: seq<byte>) returns (pkt: Packet)
    requires |b| == PACKET_SIZE
    ensures pkt == Decode(b)
  {
    hide Get16, Get32, Get64, Words;
    var p := 0;
    assert b[0..] == b;
    var magic := Get32(b[p..]); p := p + 4;
    var version := Get16(b[p..]); p := p + 2;
    var flags := Get16(b[p..]); p := p + 2;
    var wall := Get64(b[p..]); p := p + 8;
    var tai := Get64(b[p..]); p := p + 8;
    var ticks := Get32(b[p..]); p := p + 4;
    var gen := Get32(b[p..]); p := p + 4;
    var imu, rest;
    imu, p := LoadWords(b, p, 37);
    var imuSeq := Get32(b[p..]); p := p + 4;
    rest, p := LoadWords(b, p, 22);
    var ext := Get32(b[p..]); p := p + 4;
    var reserved := b[p..p + 8]; p := p + 8;
    pkt := Packet(magic, version, flags, wall, tai, ticks, gen, imu, imuSeq, rest, ext, reserved, Get32(b[p..]));
  }

  // ---------- what a stream holds ----------

  /** The valid packets at offsets 0, 288, 576, …, in order. */
  function ValidPackets(s: seq<byte>): seq<Packet> {
    if |s| < PACKET_SIZE then []
    else Delivered(s[..PACKET_SIZE]) + ValidPackets(s[PACKET_SIZE..])
  }

  function Delivered(block: seq<byte>): seq<Packet> {
    if PacketOk(block) then [Decode(block)] else []
  }

  lemma {:induction false} ValidPacketsStep(a: seq<byte>, block: seq<byte>)
    requires |a| % PACKET_SIZE == 0 && |block| == PACKET_SIZE
    ensures ValidPackets(a + block) == ValidPackets(a) + Delivered(block)
    decreases |a|
  {
    hide Delivered;
    if a == [] {
      assert a + block == block && block[..PACKET_SIZE] == block && block[PACKET_SIZE..] == [];
    } else {
      assert (a + block)[..PACKET_SIZE] == a[..PACKET_SIZE];
      assert (a + block)[PACKET_SIZE..] == a[PACKET_SIZE..] + block;
      ValidPacketsStep(a[PACKET_SIZE..], block);
    }
  }

  lemma {:induction false} ValidPacketsTail(a: seq<byte>, t: seq<byte>)
    requires |a| % PACKET_SIZE == 0 && |t| < PACKET_SIZE
    ensures ValidPackets(a + t) == ValidPackets(a)
    decreases |a|
  {
    hide Delivered;
    if a == [] {
      assert a + t == t;
    } else {
      assert (a + t)[..PACKET_SIZE] == a[..PACKET_SIZE];
      assert (a + t)[PACKET_SIZE..] == a[PACKET_SIZE..] + t;
      ValidPacketsTail(a[PACKET_SIZE..], t);
    }
  }

  /** The valid datagrams, in order; the receive buffer holds one byte more than a packet. */
  function ValidDatagrams(g: seq<seq<byte>>): seq<Packet> {
    if g == [] then [] else ValidDatagrams(g[..|g| - 1]) + Delivered(g[|g| - 1])
  }

  function Truncated(g: seq<byte>): seq<byte> {
    if |g| > PACKET_SIZE + 1 then g[..PACKET_SIZE + 1] else g
  }

  lemma TruncationHarmless(g: seq<byte>)
    ensures Delivered(Truncated(g)) == Delivered(g)
  {}

  // ---------- the connection ----------

  /** What poll and the read after it report.  `Ready(n)`: up to n bytes, or the next datagram. */
  datatype Event = Idle | Signal | PollFault | Ready(n: nat) | Retry | ReadFault

  /** An event imud_read goes on after. */
  predicate Calm(e: Event) {
    e.Ready? || e.Retry?
  }

  /** Nothing but calm events lie between two states of a script. */
  predicate Passed(was: seq<Event>, now: seq<Event>) {
    |now| <= |was| && was[|was| - |now|..] == now && forall k :: 0 <= k < |was| - |now| ==> Calm(was[k])
  }

  lemma PassedOne(was: seq<Event>, now: seq<Event>)
    requires Passed(was, now) && now != [] && Calm(now[0])
    ensures Passed(was, now[1..]) && |now[1..]| < |was|
  {
    var g := |was| - |now|;
    assert was[g] == now[0];
    assert was[g + 1..] == was[g..][1..];
  }

  /** When imud_read may return what it does: 0 after a readable event, 1 for a time-out, a signal or nothing left to
      happen, -1 for a failed call or the end of the stream. */
  predicate Returns(rc: int, was: seq<Event>, now: seq<Event>, ended: bool) {
    match rc
    case 0 => Passed(was, now) && |now| < |was|
    case 1 => Passed(was, [Idle] + now) || Passed(was, [Signal] + now) || (now == [] && Passed(was, now))
    case _ => Passed(was, [PollFault] + now) || Passed(was, [ReadFault] + now) || (ended && Passed(was, now) && |now| < |was|)
  }

  /** How often the descriptor becomes readable before a call fails. */
  function Reads(s: seq<Event>): nat {
    if s == [] || s[0].PollFault? || s[0].ReadFault? then 0
    else (if s[0].Ready? then 1 else 0) + Reads(s[1..])
  }

  /** A descriptor at one moment. */
  datatype Link = Link(script: seq<Event>, pending: seq<byte>, datagrams: seq<seq<byte>>, taken: seq<byte>,
                       received: seq<seq<byte>>)

  /** No byte and no datagram is lost or made up. */
  predicate Lossless(was: Link, now: Link) {
    && was.taken <= now.taken && was.received <= now.received
    && now.taken + now.pending == was.taken + was.pending
    && now.received + now.datagrams == was.received + was.datagrams
  }

  /** Each time the descriptor was readable something was taken, while there was something to take. */
  predicate Progress(was: Link, now: Link, udp: bool, over: bool) {
    var left := if over then 0 else Reads(now.script);
    if udp then now.datagrams == [] || Reads(was.script) + |now.datagrams| <= left + |was.datagrams|
    else (over && now.pending == []) || Reads(was.script) + |now.pending| <= left + |was.pending|
  }

  lemma Standing(a: Link, udp: bool)
    ensures Passed(a.script, a.script) && Lossless(a, a) && Progress(a, a, udp, false)
  {}

  lemma Onward(a: Link, b: Link, c: Link, udp: bool, over: bool)
    requires Lossless(a, b) && Lossless(b, c) && Progress(a, b, udp, false) && Progress(b, c, udp, over)
    ensures Lossless(a, c) && Progress(a, c, udp, over)
  {
    hide Reads;
    Dwindles(b, c);
  }

  lemma Dwindles(a: Link, b: Link)
    requires Lossless(a, b)
    ensures |b.pending| <= |a.pending| && |b.datagrams| <= |a.datagrams|
  {
    assert |b.taken| + |b.pending| == |b.taken + b.pending| == |a.taken + a.pending|;
    assert |b.received| + |b.datagrams| == |b.received + b.datagrams| == |a.received + a.datagrams|;
  }

  /** One event and what was done about it. */
  lemma OneEvent(a: Link, b: Link, e: Event, udp: bool)
    requires a.script == [e] + b.script && Lossless(a, b)
    requires e.Ready? && udp ==> a.datagrams == [] || |b.datagrams| < |a.datagrams|
    ensures e.Ready? && !udp && |b.pending| < |a.pending| ==> Progress(a, b, udp, false)
    ensures (e.Ready? && udp) || e.Retry? || e.Idle? || e.Signal? ==> Progress(a, b, udp, false)
    ensures e.PollFault? || e.ReadFault? || (e.Ready? && !udp && b.pending == []) ==> Progress(a, b, udp, true)
  {
    Dwindles(a, b);
  }

  /** At most one read since the poll that left b's script. */
  predicate Since(a: Link, b: Link) {
    b == a.(script := b.script) || Lossless(a.(script := b.script), b)
  }

  lemma JustPolled(a: Link, b: Link)
    requires b == a.(script := b.script)
    ensures Since(a, b)
  {}

  lemma SinceRead(a: Link, p: Link, b: Link)
    requires p == a.(script := b.script) && Lossless(p, b)
    ensures Since(a, b)
  {}

  lemma GoOn(was: Link, a: Link, b: Link, e: Event, udp: bool)
    requires Passed(was.script, a.script) && Lossless(was, a) && Progress(was, a, udp, false)
    requires a.script == [e] + b.script && Since(a, b) && Calm(e)
    requires e.Ready? ==> if udp then a.datagrams == [] || |b.datagrams| < |a.datagrams| else |b.pending| < |a.pending|
    ensures Passed(was.script, b.script) && Lossless(was, b) && Progress(was, b, udp, false)
    ensures Returns(0, was.script, b.script, !udp && b.pending == [])
  {
    PassedOne(was.script, a.script);
    OneEvent(a, b, e, udp);
    Onward(was, a, b, udp, false);
  }

  lemma LeaveOff(was: Link, a: Link, b: Link, e: Event, udp: bool, rc: int)
    requires Passed(was.script, a.script) && Lossless(was, a) && Progress(was, a, udp, false)
    requires a.script == [e] + b.script || (a == b && a.script == [] && e.Idle?)
    requires Since(a, b)
    requires if rc == 1 then e.Idle? || e.Signal?
             else rc == -1 && (e.PollFault? || e.ReadFault? || (e.Ready? && !udp && b.pending == []))
    ensures Returns(rc, was.script, b.script, !udp && b.pending == [])
    ensures Lossless(was, b) && Progress(was, b, udp, rc == -1)
  {
    if a.script != [] {
      if Calm(e) { PassedOne(was.script, a.script); }
      OneEvent(a, b, e, udp);
    }
    hide Lossless, Progress, Reads, Passed;
    if a.script != [] { Onward(was, a, b, udp, rc == -1); }
  }

  /** A connected descriptor: what the daemon has sent and not been read, and how it will arrive. */
  class Socket {
    var script: seq<Event>
    var pending: seq<byte>
    var datagrams: seq<seq<byte>>
    ghost var taken: seq<byte>
    ghost var received: seq<seq<byte>>

    constructor (s: seq<Event>, bytes: seq<byte>, grams: seq<seq<byte>>)
      ensures script == s && pending == bytes && datagrams == grams && taken == [] && received == []
    {
      script, pending, datagrams, taken, received := s, bytes, grams, [], [];
    }

    ghost function View(): Link
      reads this
    {
      Link(script, pending, datagrams, taken, received)
    }

    /** poll; with nothing left to happen it times out. */
    method Poll() returns (e: Event)
      modifies this`script
      ensures old(script) == [] ==> e == Idle && script == []
      ensures old(script) != [] ==> old(script) == [e] + script
      ensures View() == old(View()).(script := script)
    {
      if script == [] { return Idle; }
      e := script[0];
      script := script[1..];
    }

    /** read of at most `want` bytes, of which the event lets n through; 0 only at the end of the stream. */
    method Read(n: nat, want: nat) returns (chunk: seq<byte>)
      requires want > 0
      modifies this`pending, this`taken
      ensures |chunk| <= want && (chunk == [] ==> old(pending) == [])
      ensures old(pending) == chunk + pending && taken == old(taken) + chunk
    {
      var m := if n == 0 then 1 else n;
      if m > want { m := want; }
      if m > |pending| { m := |pending|; }
      chunk := pending[..m];
      pending := pending[m..];
      taken := taken + chunk;
    }

    /** recv of one datagram into a buffer of PACKET_SIZE + 1 bytes. */
    method Recv() returns (b: seq<byte>)
      requires datagrams != []
      modifies this`datagrams, this`received
      ensures datagrams == old(datagrams)[1..]
      ensures received == old(received) + [old(datagrams)[0]] && b == Truncated(old(datagrams)[0])
    {
      b := Truncated(datagrams[0]);
      received := received + [datagrams[0]];
      datagrams := datagrams[1..];
    }
  }

  datatype Kind = Stream | Udp | Tcp

  /** struct imud: one connection and the frame being put together. */
  class Client {
    const kind: Kind
    const rx: array<byte>
    var fd: Socket?
    var rxGot: nat
    var wire: Packet
    var wireVersion: bv16
    var have: bool

    /** The frame under construction is the unaligned tail of what the connection has read. */
    ghost predicate Valid()
      reads this, rx, fd
    {
      && rx.Length == PACKET_SIZE
      && rxGot < PACKET_SIZE
      && (fd != null && kind != Udp ==> Framed(fd.taken))
    }

    ghost predicate Framed(taken: seq<byte>)
      reads this`rxGot, rx
    {
      rx.Length == PACKET_SIZE && rxGot <= |taken| && rxGot <= PACKET_SIZE
      && (|taken| - rxGot) % PACKET_SIZE == 0 && taken[|taken| - rxGot..] == rx[..rxGot]
    }

    /** The packets the connection has carried so far. */
    ghost function Carried(): seq<Packet>
      requires fd != null
      reads this, fd
    {
      if kind == Udp then ValidDatagrams(fd.received) else ValidPackets(fd.taken)
    }

    /** imud_connect_*, once dialing has given a descriptor. */
    constructor (k: Kind, s: Socket)
      requires s.taken == [] && s.received == []
      ensures Valid() && fd == s && kind == k && fresh(rx) && Carried() == []
    {
      kind, fd, rxGot, have := k, s, 0, false;
      wire := Packet(0, 0, 0, 0, 0, 0, 0, [], 0, [], 0, [], 0);
      wireVersion := 0;
      rx := new byte[PACKET_SIZE];
    }

    /** The bytes of one read, appended to the frame. */
    method Append(chunk: seq<byte>, ghost before: seq<byte>)
      requires Framed(before) && rxGot + |chunk| <= PACKET_SIZE
      modifies rx, this`rxGot
      ensures rxGot == old(rxGot) + |chunk| && Framed(before + chunk)
    {
      forall i | 0 <= i < |chunk| {
        rx[rxGot + i] := chunk[i];
      }
      assert rx[..rxGot + |chunk|] == old(rx[..rxGot]) + chunk;
      rxGot := rxGot + |chunk|;
      var after := before + chunk;
      assert after[|after| - rxGot..] == before[|before| - old(rxGot)..] + chunk;
    }

    /** A full frame: keep it when it is valid, and start the next one either way. */
    method TakeFrame(ghost taken: seq<byte>) returns (ok: bool)
      requires Framed(taken) && rxGot == PACKET_SIZE
      modifies this`rxGot, this`wire
      ensures rxGot == 0 && Framed(taken)
      ensures ValidPackets(taken) == ValidPackets(taken[..|taken| - PACKET_SIZE]) + (if ok then [wire] else [])
      ensures !ok ==> wire == old(wire)
    {
      hide PacketOk, Decode, ValidPackets;
      var frame := rx[..];
      assert frame == rx[..PACKET_SIZE];
      WholeFrame(taken, frame);
      rxGot := 0;
      ok := CheckPacket(frame);
      if ok { wire := DecodePacket(frame); }
      assert taken[|taken|..] == rx[..0];
    }

    /** imud_read: 0 with a packet, 1 when nothing came in time, -1 when the connection is over.  It loses no byte and
        no datagram, and takes something each time the descriptor is readable. */
    method ImudRead() returns (rc: int)
      requires Valid()
      modifies this`rxGot, this`wire, this`wireVersion, this`have, rx, fd
      ensures Valid() && rc in {-1, 0, 1}
      ensures fd == null ==> rc == -1
      ensures rc != 0 ==> wire == old(wire)
      ensures rc == 0 ==> have && wireVersion == wire.version
      ensures fd != null ==> Carried() == old(Carried()) + if rc == 0 then [wire] else []
      ensures fd != null ==> Lossless(old(fd.View()), fd.View()) && Progress(old(fd.View()), fd.View(), kind == Udp, rc == -1)
      ensures fd != null ==> Returns(rc, old(fd.script), fd.script, kind != Udp && fd.pending == [])
    {
      hide Decode, PacketOk, ValidPackets, ValidDatagrams, Delivered, Passed, Lossless, Progress, Reads, Returns, Since, Framed;
      if fd == null { return -1; }
      ghost var was := fd.View();
      Standing(was, kind == Udp);
      while true
        modifies this`rxGot, this`wire, rx, fd
        invariant Valid() && wire == old(wire)
        invariant Carried() == old(Carried())
        invariant Passed(was.script, fd.script) && Lossless(was, fd.View()) && Progress(was, fd.View(), kind == Udp, false)
        decreases |fd.script|
      {
        ghost var now := fd.View();
        var e := fd.Poll();
        ghost var polled := fd.View();
        JustPolled(now, polled);
        match e {
          case Idle =>
            LeaveOff(was, now, fd.View(), e, kind == Udp, 1);
            return 1;
          case Signal =>
            LeaveOff(was, now, fd.View(), e, kind == Udp, 1);
            return 1;
          case PollFault =>
            LeaveOff(was, now, fd.View(), e, kind == Udp, -1);
            return -1;
          case Retry =>
          case ReadFault =>
            LeaveOff(was, now, fd.View(), e, kind == Udp, -1);
            return -1;
          case Ready(n) =>
            var closed, ok := Receive(n);
            SinceRead(now, polled, fd.View());
            if closed {
              LeaveOff(was, now, fd.View(), e, false, -1);
              return -1;
            }
            if ok {
              GoOn(was, now, fd.View(), e, kind == Udp);
              break;
            }
        }
        GoOn(was, now, fd.View(), e, kind == Udp);
      }
      wireVersion := wire.version;
      have := true;
      rc := 0;
    }

    /** One read or recv, when the descriptor is readable. */
    method Receive(n: nat) returns (closed: bool, ok: bool)
      requires Valid() && fd != null
      modifies this`rxGot, this`wire, rx, fd
      ensures Valid() && fd.script == old(fd.script) && !(closed && ok)
      ensures Carried() == old(Carried()) + if ok then [wire] else []
      ensures !ok ==> wire == old(wire)
      ensures Lossless(old(fd.View()), fd.View())
      ensures closed ==> kind != Udp && fd.pending == []
      ensures kind != Udp && !closed ==> |fd.pending| < |old(fd.pending)|
      ensures kind == Udp ==> old(fd.datagrams) == [] || |fd.datagrams| < |old(fd.datagrams)|
    {
      hide Decode, PacketOk, ValidPackets, ValidDatagrams, Delivered, Lossless, Framed;
      closed, ok := false, false;
      Standing(fd.View(), false);
      if kind == Udp {
        if fd.datagrams != [] { ok := ReadDatagram(); }
      } else {
        closed, ok := ReadStream(n);
      }
    }

    method ReadDatagram() returns (ok: bool)
      requires Valid() && fd != null && kind == Udp && fd.datagrams != []
      modifies this`wire, fd
      ensures Valid() && fd.script == old(fd.script)
      ensures Carried() == old(Carried()) + if ok then [wire] else []
      ensures !ok ==> wire == old(wire)
      ensures fd.taken == old(fd.taken) && fd.pending == old(fd.pending)
      ensures Lossless(old(fd.View()), fd.View()) && |fd.datagrams| < |old(fd.datagrams)|
    {
      hide PacketOk, Decode;
      ghost var g := fd.datagrams[0];
      var b := fd.Recv();
      TruncationHarmless(g);
      assert fd.received[..|fd.received| - 1] == old(fd.received);
      ok := CheckPacket(b);
      if ok {
        OkLength(b);
        wire := DecodePacket(b);
      }
    }

    method ReadStream(n: nat) returns (closed: bool, ok: bool)
      requires Valid() && fd != null && kind != Udp
      modifies this`rxGot, this`wire, rx, fd
      ensures Valid() && fd.script == old(fd.script) && !(closed && ok)
      ensures Carried() == old(Carried()) + if ok then [wire] else []
      ensures !ok ==> wire == old(wire)
      ensures Lossless(old(fd.View()), fd.View()) && fd.datagrams == old(fd.datagrams)
      ensures closed ==> fd.pending == []
      ensures !closed ==> |fd.pending| < |old(fd.pending)|
    {
      hide PacketOk, Decode, ValidPackets;
      ghost var before := fd.taken;
      closed, ok := false, false;
      var chunk := fd.Read(n, PACKET_SIZE - rxGot);
      assert fd.taken + fd.pending == before + (chunk + fd.pending);
      if chunk == [] {
        assert fd.taken == before;
        return true, false;
      }
      Append(chunk, before);
      SameFrame(before, chunk, old(rxGot));
      if rxGot == PACKET_SIZE {
        ok := TakeFrame(fd.taken);
      }
    }

    /** imud_reconnect: drop the partial frame with the old connection. */
    method Reconnect(next: Socket?) returns (rc: int)
      requires rx.Length == PACKET_SIZE && (next != null ==> next.taken == [] && next.received == [])
      modifies this`fd, this`rxGot
      ensures Valid() && fd == next && rxGot == 0
      ensures rc == (if next == null then -1 else 0)
      ensures fd != null ==> Carried() == []
    {
      fd := null;
      rxGot := 0;
      fd := next;
      rc := if fd == null then -1 else 0;
    }

    /** imud_read again and again, until the connection is over or nothing more happens.  However the bytes or the
        datagrams arrive, what comes is the valid packets of what was sent, in order: all of them when the descriptor
        is readable often enough before a call fails. */
    method ReadAll() returns (got: seq<Packet>, over: bool)
      requires Valid() && fd != null
      modifies this`rxGot, this`wire, this`wireVersion, this`have, rx, fd
      ensures Valid() && Lossless(old(fd.View()), fd.View()) && Carried() == old(Carried()) + got
      ensures Progress(old(fd.View()), fd.View(), kind == Udp, over) && (over || fd.script == [])
      ensures kind != Udp && Reads(old(fd.script)) >= |old(fd.pending)| ==>
        old(Carried()) + got == ValidPackets(old(fd.taken + fd.pending))
      ensures kind != Udp && Reads(old(fd.script)) > |old(fd.pending)| ==> over
      ensures kind == Udp && Reads(old(fd.script)) >= |old(fd.datagrams)| ==>
        old(Carried()) + got == ValidDatagrams(old(fd.received + fd.datagrams))
    {
      hide ValidPackets, ValidDatagrams, Lossless, Progress, Reads, Passed, Returns;
      ghost var was := fd.View();
      Standing(was, kind == Udp);
      got, over := [], false;
      while !over && fd.script != []
        invariant Valid() && Carried() == old(Carried()) + got
        invariant Lossless(was, fd.View()) && Progress(was, fd.View(), kind == Udp, over)
        decreases !over, |fd.script|
      {
        ghost var now := fd.View();
        var rc := ImudRead();
        if rc == 0 { got := got + [wire]; }
        over := rc == -1;
        Onward(was, now, fd.View(), kind == Udp, over);
        Shorter(rc, now.script, fd.script, kind != Udp && fd.pending == []);
      }
      Exhausted(was, fd.View(), kind == Udp, over);
    }
  }

  lemma Shorter(rc: int, was: seq<Event>, now: seq<Event>, ended: bool)
    requires rc in {-1, 0, 1} && Returns(rc, was, now, ended) && was != []
    ensures |now| < |was|
  {
    hide Calm;
  }

  /** Readable often enough, nothing is left. */
  lemma Exhausted(was: Link, now: Link, udp: bool, over: bool)
    requires Lossless(was, now) && Progress(was, now, udp, over) && (over || now.script == [])
    ensures !udp && Reads(was.script) >= |was.pending| ==> now.taken == was.taken + was.pending
    ensures !udp && Reads(was.script) > |was.pending| ==> over
    ensures udp && Reads(was.script) >= |was.datagrams| ==> now.received == was.received + was.datagrams
  {
    assert now.pending == [] ==> now.taken + now.pending == now.taken;
    assert now.datagrams == [] ==> now.received + now.datagrams == now.received;
  }

  lemma WholeFrame(taken: seq<byte>, frame: seq<byte>)
    requires |frame| == PACKET_SIZE <= |taken| && |taken| % PACKET_SIZE == 0
    requires taken[|taken| - PACKET_SIZE..] == frame
    ensures ValidPackets(taken) == ValidPackets(taken[..|taken| - PACKET_SIZE]) + Delivered(frame)
  {
    hide ValidPackets, Delivered;
    assert taken == taken[..|taken| - PACKET_SIZE] + frame;
    ValidPacketsStep(taken[..|taken| - PACKET_SIZE], frame);
  }

  lemma OkLength(b: seq<byte>)
    requires PacketOk(b)
    ensures |b| == PACKET_SIZE
  {}

  /** Bytes that do not complete a frame, or exactly complete it, leave the packets before it alone. */
  lemma SameFrame(before: seq<byte>, chunk: seq<byte>, got: nat)
    requires got <= |before| && (|before| - got) % PACKET_SIZE == 0 && got + |chunk| <= PACKET_SIZE && got < PACKET_SIZE
    ensures got + |chunk| < PACKET_SIZE ==> ValidPackets(before + chunk) == ValidPackets(before)
    ensures got + |chunk| == PACKET_SIZE ==>
      ValidPackets((before + chunk)[..|before + chunk| - PACKET_SIZE]) == ValidPackets(before)
  {
    hide ValidPackets;
    var whole := before[..|before| - got];
    assert before == whole + before[|whole|..];
    ValidPacketsTail(whole, before[|whole|..]);
    if got + |chunk| < PACKET_SIZE {
      assert before + chunk == whole + (before[|whole|..] + chunk);
      ValidPacketsTail(whole, before[|whole|..] + chunk);
    } else {
      assert (before + chunk)[..|before + chunk| - PACKET_SIZE] == whole;
    }
  }

  // ---------- true heading ----------

  /** h is the sum, turned by a number of whole circles. */
  predicate SameCourse(h: real, heading: real, declination: real, turns: int) {
    h == heading + declination + 360.0 * turns as real
  }

  /**
   * imud_true_heading over exact reals: the course in [0, 360), or -1 while the declination
   * is unknown or the sum is out of range.
   */
  method TrueHeading(known: bool, heading: real, declination: real) returns (h: real)
    ensures h == -1.0 || 0.0 <= h < 360.0
    ensures h == -1.0 <==> !known || !(-720.0 < heading + declination < 720.0)
    ensures h != -1.0 ==> exists turns :: -1 <= turns <= 2 && SameCourse(h, heading, declination, turns)
  {
    if !known { return -1.0; }
    h := heading + declination;
    if !(-720.0 < h < 720.0) { return -1.0; }
    h := h + 720.0;
    ghost var turns := 2;
    while h >= 360.0
      invariant 0.0 <= h < 360.0 * (turns + 2) as real
      invariant -1 <= turns <= 2 && SameCourse(h, heading, declination, turns)
      decreases turns
    {
      h := h - 360.0;
      turns := turns - 1;
    }
    assert SameCourse(h, heading, declination, turns);
  }
}
