/**
 The transfer functions of src/bus_ft232h.c: a bounded command buffer, flushes chosen by
 cost, replies collected behind modem-status bytes, and the I2C and SPI transactions built on
 them.  The USB device is an object whose calls may fail in any pattern; what the buses see
 is claimed for runs in which they do not.
 */
module Ft232h {
  import opened Crc32
  import opened FusionMath
  import opened Mpsse
  import I2c = I2cBus
  import Spi = SpiBus

  const CMDBUF := 4096
  const COST_BYTE := 16
  const COST_STOP := 40
  const TRIES := 200

  // ---------- the device ----------

  /** Commands other than the flush opcode, which no bus sees. */
  function Strip(cs: seq<Cmd>): seq<Cmd> {
    if cs == [] then []
    else Strip(cs[..|cs| - 1]) + if cs[|cs| - 1] == SendNow then [] else [cs[|cs| - 1]]
  }

  lemma StripOne(cs: seq<Cmd>, c: Cmd)
    ensures Strip(cs + [c]) == Strip(cs) + if c == SendNow then [] else [c]
  {
    assert (cs + [c])[..|cs|] == cs;
  }

  /** A flush opcode asks for nothing. */
  lemma {:induction false} StripSame(line: nat -> bool, at: nat, cs: seq<Cmd>)
    ensures ReplyAll(line, at, Strip(cs)) == ReplyAll(line, at, cs)
    ensures SamplesAll(Strip(cs)) == SamplesAll(cs) && OwedAll(Strip(cs)) == OwedAll(cs)
    decreases |cs|
  {
    hide ReplyAll, SamplesAll, OwedAll;
    if cs != [] {
      var front, c := cs[..|cs| - 1], cs[|cs| - 1];
      StripSame(line, at, front);
      assert front + [c] == cs;
      OneAnswer(line, at, front, c);
      OneAnswer(line, at, Strip(front), c);
      OwedSnoc(front, c);
      OwedSnoc(Strip(front), c);
      FlushAsksNothing(line, at + SamplesAll(front), c);
      StripOne(front, c);
      var r := ReplyAll(line, at, front);
      assert r + [] == r && Strip(front) + [] == Strip(front);
    }
  }

  lemma FlushAsksNothing(line: nat -> bool, at: nat, c: Cmd)
    ensures c == SendNow ==> Reply(line, at, c) == [] && Samples(c) == 0 && Owed(c) == 0
  {}

  // ---------- how USB calls turn out ----------

  const FULL := 0x7FFF_FFFF
  /** Reply bytes in the smallest packet, past its two status bytes. */
  const PACKET_ROOM := 62

  function OutcomeAt(script: seq<int>, k: nat): int {
    if k < |script| then script[k] else FULL
  }

  function Later(script: seq<int>, k: nat): seq<int> {
    if k < |script| then script[k..] else []
  }

  /** What a read of `len` bytes leaves for replies. */
  function PacketRoom(len: nat): nat {
    if len < 2 then 0 else len - 2
  }

  function Least(a: int, b: int): int {
    if a < b then a else b
  }

  /** What n reads are sure to bring while replies are waiting. */
  function Drawn(script: seq<int>, n: nat): int {
    if n == 0 then 0 else Drawn(script, n - 1) + Least(OutcomeAt(script, n - 1), PACKET_ROOM)
  }

  /** No call fails, and no run of TRIES reads brings less than a full buffer can owe.
      Packets may hold any number of replies, none at all included. */
  predicate Serves(script: seq<int>) {
    && (forall k :: 0 <= k < |script| ==> script[k] >= 0)
    && (forall i :: 0 <= i <= |script| ==> Drawn(script[i..], TRIES) >= 2 * CMDBUF)
  }

  lemma ServesLater(script: seq<int>)
    requires Serves(script)
    ensures OutcomeAt(script, 0) >= 0 && Serves(Later(script, 1))
  {
    hide Drawn;
    var rest := Later(script, 1);
    if script != [] {
      forall i | 0 <= i <= |rest| ensures Drawn(rest[i..], TRIES) >= 2 * CMDBUF {
        assert rest[i..] == script[i + 1..];
      }
    }
  }

  lemma LaterOne(script: seq<int>, k: nat)
    ensures OutcomeAt(Later(script, k), 0) == OutcomeAt(script, k)
    ensures Later(Later(script, k), 1) == Later(script, k + 1)
    ensures Later(script, 0) == script
  {}

  /** A script that has run out serves. */
  lemma NothingServes()
    ensures Serves([])
  {
    var none: seq<int> := [];
    assert none[0..] == none;
    DrawnFull(TRIES);
  }

  lemma {:induction false} DrawnFull(n: nat)
    ensures Drawn([], n) == PACKET_ROOM * n
  {
    if n > 0 { DrawnFull(n - 1); }
  }

  /** An FT232H behind include/ft_usb.h.  `line(k)` is the k-th bit it samples from the wire; `outcomes` says
      how the calls to come turn out: negative fails, otherwise at most that many reply bytes arrive. */
  class Usb {
    const line: nat -> bool
    const packetSize: nat
    var outcomes: seq<int>
    var queue: seq<byte>
    var samples: nat
    /** Calls that failed, and waits in which TRIES reads did not bring replies that were there. */
    ghost var faults: nat
    /** It was sent bytes that are no commands, or asked for replies it did not owe. */
    ghost var garbled: bool
    /** Every command run so far, flush opcodes aside. */
    ghost var ran: seq<Cmd>

    /** Nothing left over from an earlier call, and every call to come succeeds. */
    ghost predicate Healthy()
      reads this
    {
      queue == [] && packetSize >= PACKET_ROOM + 2 && Serves(outcomes)
    }

    constructor (wire: nat -> bool, packet: nat, script: seq<int>)
      ensures line == wire && packetSize == packet && outcomes == script
      ensures queue == [] && samples == 0 && ran == [] && faults == 0 && !garbled
    {
      line, packetSize, outcomes, queue, samples, faults, ran := wire, packet, script, [], 0, 0, [];
      garbled := false;
    }

    method Outcome() returns (k: int)
      modifies this`outcomes
      ensures k == OutcomeAt(old(outcomes), 0) && outcomes == Later(old(outcomes), 1)
    {
      if outcomes == [] { return FULL; }
      k := outcomes[0];
      outcomes := outcomes[1..];
    }

    /** ft_usb_control. */
    method Control() returns (ok: bool)
      modifies this`outcomes, this`faults
      ensures (ok <==> OutcomeAt(old(outcomes), 0) >= 0) && outcomes == Later(old(outcomes), 1)
      ensures faults == old(faults) + if ok then 0 else 1
      ensures old(Healthy()) ==> ok && Healthy()
    {
      hide Serves;
      if Serves(outcomes) { ServesLater(outcomes); }
      var k := Outcome();
      ok := k >= 0;
      if !ok { faults := faults + 1; }
    }

    /** ft_usb_write: it fails when its outcome says so; otherwise the chip runs what it is sent. */
    method Write(b: seq<byte>) returns (ok: bool)
      modifies this
      ensures ok <==> OutcomeAt(old(outcomes), 0) >= 0
      ensures outcomes == Later(old(outcomes), 1)
      ensures faults == old(faults) + if ok then 0 else 1
      ensures garbled == (old(garbled) || (ok && Parse(b).None?))
      ensures !ok || Parse(b).None? ==> ran == old(ran) && queue == old(queue) && samples == old(samples)
      ensures ok && Parse(b).Some? ==>
        && ran == old(ran) + Strip(Parse(b).value)
        && queue == old(queue) + ReplyAll(line, old(samples), Parse(b).value)
        && samples == old(samples) + SamplesAll(Parse(b).value)
    {
      hide ReplyAll, SamplesAll, Strip, Parse;
      var k := Outcome();
      if k < 0 {
        faults := faults + 1;
        return false;
      }
      ok := true;
      var p := Parse(b);
      if p.None? {
        garbled := true;
        return;
      }
      queue := queue + ReplyAll(line, samples, p.value);
      samples := samples + SamplesAll(p.value);
      ran := ran + Strip(p.value);
    }

    /** ft_usb_read: one packet, two modem-status bytes and then reply bytes. */
    method Read(len: nat) returns (n: int, b: seq<byte>)
      modifies this`outcomes, this`queue, this`faults
      ensures outcomes == Later(old(outcomes), 1)
      ensures n < 0 <==> OutcomeAt(old(outcomes), 0) < 0
      ensures faults == old(faults) + if n < 0 then 1 else 0
      ensures n < 0 ==> queue == old(queue)
      ensures n >= 0 ==>
        && n == |b| == 2 + Least(Least(PacketRoom(len), OutcomeAt(old(outcomes), 0)), |old(queue)|)
        && old(queue) == b[2..] + queue
    {
      var k := Outcome();
      if k < 0 {
        faults := faults + 1;
        return -1, [];
      }
      var m := PacketRoom(len);
      if m > k { m := k; }
      if m > |queue| { m := |queue|; }
      b := [0x32, 0x60] + queue[..m];
      n := |b|;
      assert b[2..] == queue[..m];
      queue := queue[m..];
    }
  }

  /** No call on the device has failed since, and nothing was left over before. */
  twostate predicate Unfailed(u: Usb)
    reads u
  {
    u.faults == old(u.faults) && old(u.queue) == []
  }

  /** A call failed and did nothing. */
  twostate predicate Idled(u: Usb, dropped0: bool, dropped: bool)
    reads u
  {
    u.outcomes == Later(old(u.outcomes), 1) && u.ran == old(u.ran) && u.queue == old(u.queue) && dropped == dropped0
  }

  // ---------- the command stream ----------

  /** The bytes queued are the commands held, which are those of the log not yet sent with flush opcodes between;
      the chip has run the others, from ran0 on. */
  ghost predicate Laid(held: seq<Cmd>, queued: seq<byte>, log: seq<Cmd>, sent: nat, ran0: seq<Cmd>, ran: seq<Cmd>) {
    sent <= |log| && ValidCmds(held) && queued == EncodeAll(held) && Strip(held) == log[sent..] && ran == ran0 + log[..sent]
  }

  /** What the commands sent answered has come back. */
  ghost predicate Account(line: nat -> bool, base: nat, log: seq<Cmd>, sent: nat, samples: nat, got: seq<byte>)
    requires sent <= |log|
  {
    && samples == base + SamplesAll(log[..sent])
    && |got| == OwedAll(log[..sent])
    && got == ReplyAll(line, base, log[..sent])
  }

  lemma LaidGrows(held: seq<Cmd>, queued: seq<byte>, log: seq<Cmd>, sent: nat, ran0: seq<Cmd>, ran: seq<Cmd>, c: Cmd)
    requires Laid(held, queued, log, sent, ran0, ran) && ValidCmd(c) && c != SendNow
    ensures Laid(held + [c], queued + Encode(c), log + [c], sent, ran0, ran)
  {
    LogTail(log, sent, c);
    StripOne(held, c);
    EncodeSnoc(held, c);
    hide ValidCmds, ValidCmd, EncodeAll, Encode, Strip;
  }

  lemma LaidFlushed(held: seq<Cmd>, queued: seq<byte>, log: seq<Cmd>, sent: nat, ran0: seq<Cmd>, ran: seq<Cmd>)
    requires Laid(held, queued, log, sent, ran0, ran)
    ensures Laid(held + [SendNow], queued + [MC_FLUSH], log, sent, ran0, ran)
  {
    StripOne(held, SendNow);
    EncodeSnoc(held, SendNow);
    assert Encode(SendNow) == [MC_FLUSH];
    hide ValidCmds, ValidCmd, EncodeAll, Encode, Strip;
  }

  /** A log of which the commands not yet sent are more by one. */
  lemma AccountGrows(line: nat -> bool, base: nat, log: seq<Cmd>, sent: nat, samples: nat, got: seq<byte>, c: Cmd)
    requires sent <= |log| && Account(line, base, log, sent, samples, got)
    ensures Account(line, base, log + [c], sent, samples, got)
  {
    hide OwedAll, ReplyAll, SamplesAll;
    LogTail(log, sent, c);
  }

  /** mpsse_t. */
  class Stream {
    const usb: Usb
    const cmd: array<byte>
    const reply: array<byte>
    var n: nat
    var replied: nat
    var pending: nat
    var failed: bool
    /** Every command emitted, flush opcodes aside; the chip has run the first `sent` of them. */
    ghost var log: seq<Cmd>
    ghost var sent: nat
    /** What the buffer holds, flush opcodes and all. */
    ghost var held: seq<Cmd>
    /** A call has failed, or an earlier one left replies behind. */
    ghost var lost: bool
    /** Replies have been lost track of: a call other than a write has failed. */
    ghost var dropped: bool
    ghost const ran0: seq<Cmd>
    ghost const base: nat
    ghost const faults0: nat
    ghost const garbled0: bool
    /** An earlier call that failed left replies behind. */
    ghost const stale0: bool
    /** No call to come will fail. */
    ghost const healthy0: bool

    ghost predicate Shape()
      reads this
    {
      && cmd.Length == CMDBUF && n <= CMDBUF && sent <= |log| && cmd != reply
      && (!failed ==> replied + pending == OwedAll(log))
    }

    /** Until replies are lost track of: what the chip has run has been answered. */
    ghost predicate Synced()
      reads this, usb, reply
      requires Shape()
    {
      && replied <= reply.Length && pending <= 2 * n && usb.queue == []
      && Account(usb.line, base, log, sent, usb.samples, reply[..replied])
    }

    /** What the account rests on: it is lost only by a failed call, and never on a healthy device. */
    ghost predicate Kept()
      reads this`lost, this`dropped, usb
    {
      && (lost ==> usb.faults > faults0 || stale0)
      && (stale0 ==> dropped) && (dropped ==> lost)
      && (!lost ==> usb.faults == faults0) && (!dropped ==> usb.garbled == garbled0)
      && (healthy0 ==> !lost && usb.packetSize >= PACKET_ROOM + 2 && Serves(usb.outcomes))
    }

    ghost predicate Valid()
      reads this, usb, cmd, reply
    {
      Shape() && Kept() && Laid(held, cmd[..n], log, sent, ran0, usb.ran) && (!dropped && !failed ==> Synced())
    }

    constructor (u: Usb, collector: array<byte>)
      ensures Valid() && usb == u && reply == collector && fresh(cmd) && lost == dropped == stale0 == (u.queue != []) && !failed
      ensures n == 0 && replied == 0 && pending == 0 && log == [] && sent == 0
      ensures ran0 == u.ran && base == u.samples && faults0 == u.faults && garbled0 == u.garbled && healthy0 == u.Healthy()
    {
      usb, reply := u, collector;
      cmd := new byte[CMDBUF];
      n, replied, pending, failed := 0, 0, 0, false;
      log, sent, held := [], 0, [];
      lost, dropped, stale0 := u.queue != [], u.queue != [], u.queue != [];
      ran0, base, faults0, garbled0, healthy0 := u.ran, u.samples, u.faults, u.garbled, u.Healthy();
    }

    method Queue(b: seq<byte>)
      requires n + |b| <= CMDBUF == cmd.Length
      modifies this`n, cmd
      ensures n == old(n) + |b| && cmd[..n] == old(cmd[..n]) + b
    {
      forall i | 0 <= i < |b| { cmd[n + i] := b[i]; }
      assert cmd[..n + |b|] == old(cmd[..n]) + b;
      n := n + |b|;
    }

    /** The bytes queued and the command logged. */
    method Append(c: Cmd, b: seq<byte>)
      requires Shape() && !failed && ValidCmd(c) && c != SendNow && Laid(held, cmd[..n], log, sent, ran0, usb.ran)
      requires b == Encode(c) && n + |b| <= CMDBUF
      modifies this`n, this`pending, this`log, this`held, cmd
      ensures Shape() && Laid(held, cmd[..n], log, sent, ran0, usb.ran)
      ensures n == old(n) + |b| && log == old(log) + [c] && pending == old(pending) + Owed(c)
    {
      hide OwedAll, Owed, Encode, ValidCmd, Laid;
      LaidGrows(held, cmd[..n], log, sent, ran0, usb.ran, c);
      OwedSnoc(log, c);
      Queue(b);
      pending := pending + Owed(c);
      log := log + [c];
      held := held + [c];
    }

    /** A command that fits, with the reply it owes. */
    method Accept(c: Cmd, b: seq<byte>)
      requires Valid() && !failed && ValidCmd(c) && c != SendNow && (c.In? ==> c.count <= 6)
      requires b == Encode(c) && n + |b| <= CMDBUF
      modifies this`n, this`pending, this`log, this`held, cmd
      ensures Valid() && n == old(n) + |b| && log == old(log) + [c] && pending == old(pending) + Owed(c)
    {
      hide OwedAll, Owed, Encode, ValidCmd, Account, Laid, Serves, Stream.Kept;
      OwesLittle(c);
      if !dropped { AccountGrows(usb.line, base, log, sent, usb.samples, reply[..replied], c); }
      Append(c, b);
    }

    /** EMIT: one command into the buffer, refused rather than overrun. */
    method Emit(c: Cmd)
      requires Valid() && ValidCmd(c) && c != SendNow && (c.In? ==> c.count <= 6)
      modifies this`n, this`pending, this`failed, this`log, this`held, cmd
      ensures Valid()
      ensures old(failed) ==> failed
      ensures !old(failed) && old(n) + |Encode(c)| <= CMDBUF ==>
                !failed && n == old(n) + |Encode(c)| && log == old(log) + [c] && pending == old(pending) + Owed(c)
      ensures log == if failed then old(log) else old(log) + [c]
    {
      hide Encode, ValidCmd, Owed, ReplyAll, SamplesAll, EncodeAll, OwedAll, Serves;
      var b := Encode(c);
      if failed {
        pending := pending + Owed(c);
        return;
      }
      if n + |b| > CMDBUF {
        pending := pending + Owed(c);
        failed := true;
        return;
      }
      Accept(c, b);
    }

    /** Reply bytes stored behind those already collected. */
    method Store(at: nat, b: seq<byte>)
      requires at + |b| <= reply.Length
      modifies reply
      ensures reply[at..at + |b|] == b && reply[..at] == old(reply[..at])
    {
      forall i | 0 <= i < |b| { reply[at + i] := b[i]; }
    }

    method Extend(at: nat, b: seq<byte>)
      requires at + |b| <= reply.Length
      modifies reply
      ensures reply[..at + |b|] == old(reply[..at]) + b
    {
      Store(at, b);
      assert reply[..at + |b|] == reply[..at] + reply[at..at + |b|];
    }

    /** Of the `want` replies q0, the first `got` lie behind r0 in the collector and the rest are still to be read. */
    ghost predicate Filled(r0: seq<byte>, q0: seq<byte>, want: nat, got: nat)
      reads this`replied, usb`queue, reply
    {
      replied + want <= reply.Length && got <= want
      && (|q0| == want ==> usb.queue == q0[got..] && reply[..replied + got] == r0 + q0[..got])
    }

    lemma FilledNone(r0: seq<byte>, q0: seq<byte>, want: nat)
      requires replied + want <= reply.Length && r0 == reply[..replied] && q0 == usb.queue
      ensures Filled(r0, q0, want, 0)
    {
      assert reply[..replied + 0] == r0 + q0[..0] && q0[0..] == q0;
    }

    /** One read: what it brings, less its status bytes and what is not wanted. */
    method TakePacket(pkt: nat, want: nat, got: nat, ghost r0: seq<byte>, ghost q0: seq<byte>) returns (ok: bool, avail: nat)
      requires Filled(r0, q0, want, got) && got < want
      modifies reply, usb`outcomes, usb`queue, usb`faults
      ensures usb.outcomes == Later(old(usb.outcomes), 1) && (ok <==> OutcomeAt(old(usb.outcomes), 0) >= 0)
      ensures usb.faults == old(usb.faults) + if ok then 0 else 1
      ensures ok ==> avail <= want - got && Filled(r0, q0, want, got + avail)
      ensures ok && |q0| == want ==> avail == Least(Least(PacketRoom(pkt), OutcomeAt(old(usb.outcomes), 0)), want - got)
    {
      var k, b := usb.Read(pkt);
      if k < 0 { return false, 0; }
      ok, avail := true, 0;
      if k <= 2 { return; }
      avail := k - 2;
      if avail > want - got { avail := want - got; }
      var data := b[2..2 + avail];
      if |q0| == want { Arrived(r0, q0, got, b[2..], usb.queue, data); }
      Extend(replied + got, data);
    }

    /** The reading loop of mpsse_reply: what came in, unless a read failed. */
    method ReadUpTo(want: nat) returns (ok: bool, got: nat)
      requires replied + want <= reply.Length
      modifies reply, usb`outcomes, usb`queue, usb`faults
      ensures usb.faults == old(usb.faults) + if ok then 0 else 1
      ensures ok ==> Filled(old(reply[..replied]), old(usb.queue), want, got)
      ensures old(Serves(usb.outcomes)) ==> ok && Serves(usb.outcomes)
      ensures ok && |old(usb.queue)| == want && usb.packetSize >= PACKET_ROOM + 2 ==>
        got >= Least(want, Drawn(old(usb.outcomes), TRIES)) || got == want
    {
      hide Serves, Drawn, Least, PacketRoom, Later, OutcomeAt, Stream.Filled;
      var pkt := if usb.packetSize > 512 then 512 else usb.packetSize;
      ghost var q0, r0, s0 := usb.queue, reply[..replied], usb.outcomes;
      var tries := 0;
      ok, got := true, 0;
      FilledNone(r0, q0, want);
      LaterOne(s0, 0);
      DrawnNone(s0, want);
      while tries < TRIES && got < want
        invariant 0 <= got <= want && tries <= TRIES && usb.faults == old(usb.faults)
        invariant usb.outcomes == Later(s0, tries) && (Serves(s0) ==> Serves(usb.outcomes))
        invariant Filled(r0, q0, want, got)
        invariant |q0| == want && pkt >= PACKET_ROOM + 2 ==> got >= Least(want, Drawn(s0, tries))
        decreases TRIES - tries
      {
        LaterOne(s0, tries);
        if Serves(s0) { ServesLater(usb.outcomes); }
        DrawnNext(s0, tries);
        var read, avail := TakePacket(pkt, want, got, r0, q0);
        tries := tries + 1;
        if !read { return false, got; }
        BringsMore(want, got, avail, Drawn(s0, tries - 1), OutcomeAt(s0, tries - 1), pkt);
        got := got + avail;
      }
    }

    /** mpsse_reply: the reply bytes owed, their packets' status bytes dropped.  It fails when a read does, or
        when TRIES reads do not bring what is there; asking for more than is owed fails too, and shows in `garbled`. */
    method Collect(want: nat) returns (ok: bool)
      requires replied + want <= reply.Length
      modifies reply, usb`outcomes, usb`queue, usb`faults, usb`garbled
      ensures ok ==> usb.faults == old(usb.faults)
      ensures want <= |old(usb.queue)| ==> usb.garbled == old(usb.garbled) && (ok <==> usb.faults == old(usb.faults))
      ensures usb.faults >= old(usb.faults)
      ensures ok && |old(usb.queue)| == want ==>
                usb.queue == [] && reply[..replied + want] == old(reply[..replied]) + old(usb.queue)
      ensures old(Serves(usb.outcomes)) ==> Serves(usb.outcomes)
      ensures old(Serves(usb.outcomes)) && usb.packetSize >= PACKET_ROOM + 2 && |old(usb.queue)| == want <= 2 * CMDBUF ==> ok
    {
      hide Serves, Drawn;
      ghost var q0, s0 := usb.queue, usb.outcomes;
      var got;
      ok, got := ReadUpTo(want);
      if !ok { return; }
      if got < want {
        if want <= |q0| { usb.faults := usb.faults + 1; } else { usb.garbled := true; }
        if Serves(s0) { ServedBy(s0); }
        return false;
      }
      assert |q0| == want ==> q0[..got] == q0 && q0[got..] == [];
    }

    /** The buffer is ready to go out. */
    ghost predicate Ready()
      reads this, usb, reply
      requires Shape()
    {
      && usb.queue == [] && replied <= reply.Length && pending <= 2 * CMDBUF
      && usb.samples + SamplesAll(held) == base + SamplesAll(log)
      && ReplyAll(usb.line, base, log) == reply[..replied] + ReplyAll(usb.line, usb.samples, held)
      && |ReplyAll(usb.line, usb.samples, held)| == pending
    }

    /** The write of mpsse_flush: the chip runs what is held. */
    method Send() returns (ok: bool)
      requires n <= cmd.Length && Laid(held, cmd[..n], log, sent, ran0, usb.ran)
      modifies this`n, this`sent, this`held, usb
      ensures n <= cmd.Length && Laid(held, cmd[..n], log, sent, ran0, usb.ran) && (ok <==> OutcomeAt(old(usb.outcomes), 0) >= 0)
      ensures usb.outcomes == Later(old(usb.outcomes), 1) && usb.garbled == old(usb.garbled)
      ensures usb.faults == old(usb.faults) + if ok then 0 else 1
      ensures if ok then n == 0 && sent == |log| && usb.samples == old(usb.samples) + SamplesAll(old(held))
                         && usb.queue == old(usb.queue) + ReplyAll(usb.line, old(usb.samples), old(held))
              else unchanged(this) && usb.samples == old(usb.samples) && usb.queue == old(usb.queue) && usb.ran == old(usb.ran)
    {
      hide EncodeAll, ReplyAll, SamplesAll, Strip, Parse, ValidCmds, Laid;
      LaidRuns(held, cmd[..n], log, sent, ran0, usb.ran);
      ok := usb.Write(cmd[..n]);
      if !ok { return; }
      n, sent, held := 0, |log|, [];
      LaidNothing(log, cmd[..n], ran0, usb.ran);
    }

    /** The replies the commands just sent owe. */
    method Gather() returns (ok: bool)
      requires Shape() && Kept() && !failed && OwedAll(log) <= reply.Length && n == 0 && sent == |log|
      requires Laid(held, cmd[..n], log, sent, ran0, usb.ran)
      requires !dropped ==>
        && replied <= reply.Length && pending <= 2 * CMDBUF && |usb.queue| == pending
        && usb.samples == base + SamplesAll(log) && ReplyAll(usb.line, base, log) == reply[..replied] + usb.queue
      modifies this`replied, this`pending, this`lost, this`dropped, reply, usb`outcomes, usb`queue, usb`faults, usb`garbled
      ensures Valid() && (old(lost) ==> lost) && (old(dropped) ==> dropped)
      ensures if ok then pending == 0 && lost == old(lost) && dropped == old(dropped) else lost
      ensures !old(dropped) && usb.packetSize >= PACKET_ROOM + 2 && old(Serves(usb.outcomes)) ==> ok
    {
      hide OwedAll, ReplyAll, SamplesAll, Serves, Account, Laid;
      ok := true;
      if pending > 0 {
        ok := Collect(pending);
        if !ok {
          lost, dropped := true, true;
          return;
        }
        replied := replied + pending;
        pending := 0;
      } else if !dropped {
        NoReplies(reply[..replied], usb.queue);
      }
      if !dropped { AllAccounted(usb.line, base, log, usb.samples, reply[..replied]); }
    }

    /** The USB exchange of mpsse_flush. */
    method Exchange() returns (ok: bool)
      requires Shape() && Kept() && !failed && OwedAll(log) <= reply.Length
      requires Laid(held, cmd[..n], log, sent, ran0, usb.ran) && (!dropped ==> Synced() && Ready())
      modifies this`n, this`replied, this`pending, this`sent, this`held, this`lost, this`dropped, reply, usb
      ensures Valid() && (old(lost) ==> lost) && (old(dropped) ==> dropped)
      ensures if ok then n == 0 && sent == |log| && pending == 0 && lost == old(lost) && dropped == old(dropped) else lost
      ensures OutcomeAt(old(usb.outcomes), 0) < 0 ==> !ok && unchanged(this`n) && Idled(usb, old(dropped), dropped)
      ensures !old(dropped) && usb.packetSize >= PACKET_ROOM + 2 && old(Serves(usb.outcomes)) ==> ok
    {
      hide OwedAll, ReplyAll, SamplesAll, Serves, Account, Laid, Later, OutcomeAt;
      ghost var script := usb.outcomes;
      if Serves(script) { ServesLater(script); }
      ok := Send();
      if !ok {
        lost := true;
        return;
      }
      ok := Gather();
    }

    /** mpsse_flush: send what is queued, collect what it owes. */
    method Flush() returns (ok: bool)
      requires Valid() && (!failed ==> OwedAll(log) <= reply.Length)
      modifies this`n, this`replied, this`pending, this`failed, this`sent, this`held, this`lost, this`dropped, cmd, reply, usb
      ensures Valid() && log == old(log)
      ensures (old(lost) ==> lost) && (old(dropped) ==> dropped) && (old(failed) ==> failed)
      ensures if ok then !failed && n == 0 && sent == |log| && lost == old(lost) && dropped == old(dropped)
              else lost || failed
      ensures !old(failed) && old(n) < CMDBUF ==> !failed
      ensures ok && !lost ==> pending == 0 && Synced()
      ensures !old(failed) && 0 < old(n) < CMDBUF && OutcomeAt(old(usb.outcomes), 0) < 0 ==>
                !ok && n <= old(n) + 1 && Idled(usb, old(dropped), dropped)
      ensures !old(failed) && !old(dropped) && old(n) < CMDBUF && usb.packetSize >= PACKET_ROOM + 2 && old(Serves(usb.outcomes)) ==>
                ok
    {
      hide EncodeAll, OwedAll, ReplyAll, SamplesAll, Encode, Strip, ValidCmds, Account, Laid, Serves;
      if failed { return false; }
      if n == 0 {
        NothingQueued(held, log, sent, cmd[..n], ran0, usb.ran);
        return true;
      }
      ghost var b := cmd[..n];
      if pending > 0 {
        if n == CMDBUF {
          failed := true;
          return false;
        }
        LaidFlushed(held, cmd[..n], log, sent, ran0, usb.ran);
        cmd[n] := MC_FLUSH;
        n := n + 1;
        assert cmd[..n] == b + [MC_FLUSH];
        held := held + [SendNow];
      }
      if !dropped { QueuedRuns(held, cmd[..n], log, sent, ran0, usb.ran, usb.line, base, usb.samples, reply[..replied]); }
      ok := Exchange();
    }

    /** mpsse_room: flush when `need` more bytes and a flush opcode would not fit. */
    method Room(need: nat) returns (ok: bool)
      requires Valid() && (!failed ==> OwedAll(log) <= reply.Length)
      modifies this`n, this`replied, this`pending, this`failed, this`sent, this`held, this`lost, this`dropped, cmd, reply, usb
      ensures Valid() && log == old(log)
      ensures (old(lost) ==> lost) && (old(dropped) ==> dropped) && (old(failed) ==> failed)
      ensures if ok then !failed && lost == old(lost) && dropped == old(dropped) else lost || failed
      ensures !old(failed) && old(n) < CMDBUF ==> !failed && (ok ==> n + need + 1 <= CMDBUF || n == 0)
      ensures old(n) + need + 1 <= CMDBUF ==> unchanged(this) && unchanged(usb) && ok == !failed
      ensures !old(failed) && 0 < old(n) < CMDBUF < old(n) + need + 1 && OutcomeAt(old(usb.outcomes), 0) < 0 ==>
                !ok && n <= old(n) + 1 && Idled(usb, old(dropped), dropped)
    {
      if n + need + 1 > CMDBUF {
        ok := Flush();
        return;
      }
      ok := !failed;
    }
  }

  lemma LogTail(log: seq<Cmd>, sent: nat, c: Cmd)
    requires sent <= |log|
    ensures (log + [c])[sent..] == log[sent..] + [c] && (log + [c])[..sent] == log[..sent]
  {}

  lemma DrawnNone(s: seq<int>, want: nat)
    ensures Least(want, Drawn(s, 0)) == 0
  {}

  lemma DrawnNext(s: seq<int>, n: nat)
    ensures Drawn(s, n + 1) == Drawn(s, n) + Least(OutcomeAt(s, n), PACKET_ROOM)
  {}

  /** One more read, of a packet that may hold what the outcome allows. */
  lemma BringsMore(want: nat, got: nat, avail: nat, drawn: int, outcome: int, pkt: nat)
    requires got <= want && outcome >= 0
    ensures got >= Least(want, drawn) && pkt >= PACKET_ROOM + 2 && avail == Least(Least(PacketRoom(pkt), outcome), want - got) ==>
      got + avail >= Least(want, drawn + Least(outcome, PACKET_ROOM))
  {}

  lemma ServedBy(s: seq<int>)
    requires Serves(s)
    ensures Drawn(s, TRIES) >= 2 * CMDBUF
  {
    hide Drawn;
    assert s[0..] == s;
  }

  /** A command owes at most two reply bytes for each byte it takes. */
  lemma OwesLittle(c: Cmd)
    requires ValidCmd(c) && (c.In? ==> c.count <= 6)
    ensures Owed(c) <= 2 * |Encode(c)|
  {}

  lemma Arrived(r0: seq<byte>, q0: seq<byte>, got: nat, all: seq<byte>, left: seq<byte>, data: seq<byte>)
    requires got <= |q0| && q0[got..] == all + left && data <= all && (data == all || |data| == |q0| - got)
    ensures got + |data| <= |q0| && left == q0[got + |data|..]
    ensures r0 + q0[..got + |data|] == (r0 + q0[..got]) + data
  {
    assert |all| <= |q0| - got;
    assert data == all;
    assert q0[..got + |data|] == q0[..got] + data;
  }

  /** The bytes held parse to the commands held, which bring what the chip has run up to the log. */
  lemma LaidRuns(held: seq<Cmd>, queued: seq<byte>, log: seq<Cmd>, sent: nat, ran0: seq<Cmd>, ran: seq<Cmd>)
    requires Laid(held, queued, log, sent, ran0, ran)
    ensures Parse(queued) == Some(held) && ran + Strip(held) == ran0 + log
  {
    ParseAll(held);
    hide EncodeAll, Parse, Strip, ValidCmds;
    assert log == log[..sent] + log[sent..];
    SeqAssoc(ran0, log[..sent], log[sent..]);
  }

  lemma LaidNothing(log: seq<Cmd>, b: seq<byte>, ran0: seq<Cmd>, ran: seq<Cmd>)
    requires b == [] && ran == ran0 + log
    ensures Laid([], b, log, |log|, ran0, ran)
  {
    assert log[..|log|] == log && log[|log|..] == [];
  }

  lemma AllAccounted(line: nat -> bool, base: nat, log: seq<Cmd>, samples: nat, got: seq<byte>)
    requires samples == base + SamplesAll(log) && got == ReplyAll(line, base, log)
    ensures Account(line, base, log, |log|, samples, got)
  {
    assert log[..|log|] == log;
    ReplyLength(line, base, log);
  }

  lemma NoReplies(a: seq<byte>, b: seq<byte>)
    requires b == []
    ensures a + b == a
  {}

  lemma EncodedNonempty(cs: seq<Cmd>)
    requires ValidCmds(cs)
    ensures cs != [] ==> |EncodeAll(cs)| > 0
  {
    hide Encode;
  }

  /** An empty buffer holds no commands. */
  lemma NothingQueued(held: seq<Cmd>, log: seq<Cmd>, sent: nat, b: seq<byte>, ran0: seq<Cmd>, ran: seq<Cmd>)
    requires b == [] && Laid(held, b, log, sent, ran0, ran)
    ensures sent == |log| && log[..sent] == log && held == []
  {
    hide EncodeAll, ValidCmds;
    EncodedNonempty(held);
  }

  /** What the buffer holds answers what the log still owes, and ends its account. */
  lemma QueuedRuns(held: seq<Cmd>, queued: seq<byte>, log: seq<Cmd>, sent: nat, ran0: seq<Cmd>, ran: seq<Cmd>,
                   line: nat -> bool, base: nat, samples: nat, got: seq<byte>)
    requires Laid(held, queued, log, sent, ran0, ran) && Account(line, base, log, sent, samples, got)
    ensures samples + SamplesAll(held) == base + SamplesAll(log)
    ensures ReplyAll(line, base, log) == got + ReplyAll(line, samples, held)
    ensures |got| + |ReplyAll(line, samples, held)| == OwedAll(log)
  {
    hide EncodeAll, ReplyAll, SamplesAll, OwedAll, Strip, ValidCmds;
    var cs := log[sent..];
    assert log == log[..sent] + cs;
    SamplesAppend(log[..sent], cs);
    ReplyAppend(line, base, log[..sent], cs);
    ReplyLength(line, samples, held);
    StripSame(line, samples, held);
  }

  lemma OwedSnoc(cs: seq<Cmd>, c: Cmd)
    ensures OwedAll(cs + [c]) == OwedAll(cs) + Owed(c)
  {
    hide Owed;
    assert (cs + [c])[..|cs|] == cs;
  }

  // ---------- replies of a transaction ----------

  /** The reply to each byte written: its acknowledge bit, low when a part pulled it. */
  function Acks(line: nat -> bool, at: nat, n: nat): (b: seq<byte>)
    ensures |b| == n
  {
    seq(n, k requires 0 <= k < n => if line(at + k) then 1 else 0)
  }

  lemma {:induction false} LevelsAnswerNothing(line: nat -> bool, at: nat, cs: seq<Cmd>)
    requires forall k :: 0 <= k < |cs| ==> cs[k].SetLow?
    ensures ReplyAll(line, at, cs) == [] && SamplesAll(cs) == 0 && OwedAll(cs) == 0
    decreases |cs|
  {
    if cs != [] { LevelsAnswerNothing(line, at, cs[..|cs| - 1]); }
  }

  lemma FourAnswers(line: nat -> bool, at: nat, a: Cmd, b: Cmd, c: Cmd, d: Cmd)
    ensures SamplesAll([a, b, c, d]) == Samples(a) + Samples(b) + Samples(c) + Samples(d)
    ensures OwedAll([a, b, c, d]) == Owed(a) + Owed(b) + Owed(c) + Owed(d)
    ensures ReplyAll(line, at, [a, b, c, d])
         == Reply(line, at, a) + Reply(line, at + Samples(a), b) + Reply(line, at + Samples(a) + Samples(b), c)
            + Reply(line, at + Samples(a) + Samples(b) + Samples(c), d)
  {
    hide Reply, Samples, Owed, ReplyAll, SamplesAll, OwedAll;
    assert [] + [a] == [a] && [a] + [b] == [a, b] && [a, b] + [c] == [a, b, c] && [a, b, c] + [d] == [a, b, c, d];
    OneAnswer(line, at, [], a);
    OneAnswer(line, at, [a], b);
    OneAnswer(line, at, [a, b], c);
    OneAnswer(line, at, [a, b, c], d);
  }

  lemma OneAnswer(line: nat -> bool, at: nat, cs: seq<Cmd>, c: Cmd)
    ensures SamplesAll(cs + [c]) == SamplesAll(cs) + Samples(c)
    ensures OwedAll(cs + [c]) == OwedAll(cs) + Owed(c)
    ensures ReplyAll(line, at, cs + [c]) == ReplyAll(line, at, cs) + Reply(line, at + SamplesAll(cs), c)
    ensures SamplesAll([]) == 0 && OwedAll([]) == 0 && ReplyAll(line, at, []) == []
  {
    hide Reply, Samples, Owed;
    assert (cs + [c])[..|cs|] == cs;
  }

  lemma WriteAnswers(line: nat -> bool, at: nat, v: byte)
    ensures ReplyAll(line, at, I2c.WriteCmds(v)) == Acks(line, at, 1)
    ensures SamplesAll(I2c.WriteCmds(v)) == 1 && OwedAll(I2c.WriteCmds(v)) == 1
  {
    FourAnswers(line, at, SetLow(0, I2c.DIR_DRIVE), Out(Neg, [v]), SetLow(0, I2c.DIR_LISTEN), InBit);
  }

  lemma ReadAnswers(line: nat -> bool, at: nat, nak: bool)
    ensures ReplyAll(line, at, I2c.ReadCmds(nak)) == BytesAtSample(line, at, 1)
    ensures SamplesAll(I2c.ReadCmds(nak)) == 8 && OwedAll(I2c.ReadCmds(nak)) == 1
  {
    hide ByteAtSample;
    FourAnswers(line, at, SetLow(0, I2c.DIR_LISTEN), In(1), SetLow(0, I2c.DIR_DRIVE), OutBits(if nak then 0x80 else 0));
  }

  lemma EndsAnswerNothing(line: nat -> bool, at: nat)
    ensures ReplyAll(line, at, I2c.StartCmds()) == [] && SamplesAll(I2c.StartCmds()) == 0 && OwedAll(I2c.StartCmds()) == 0
    ensures ReplyAll(line, at, I2c.StopCmds()) == [] && SamplesAll(I2c.StopCmds()) == 0 && OwedAll(I2c.StopCmds()) == 0
  {
    LevelsAnswerNothing(line, at, I2c.StartCmds());
    LevelsAnswerNothing(line, at, I2c.StopCmds());
  }

  lemma {:induction false} WritesAnswer(line: nat -> bool, at: nat, tx: seq<byte>)
    ensures ReplyAll(line, at, I2c.WritesCmds(tx)) == Acks(line, at, |tx|)
    ensures SamplesAll(I2c.WritesCmds(tx)) == |tx| && OwedAll(I2c.WritesCmds(tx)) == |tx|
    decreases |tx|
  {
    hide I2c.WriteCmds, ReplyAll, SamplesAll, OwedAll;
    if tx == [] {
      OneAnswer(line, at, [], SendNow);
    } else {
      var front := tx[..|tx| - 1];
      WritesAnswer(line, at, front);
      WriteAnswers(line, at + |front|, tx[|tx| - 1]);
      ReplyAppend(line, at, I2c.WritesCmds(front), I2c.WriteCmds(tx[|tx| - 1]));
      SamplesAppend(I2c.WritesCmds(front), I2c.WriteCmds(tx[|tx| - 1]));
      AcksAppend(line, at, |front|, 1);
    }
  }

  lemma AcksAppend(line: nat -> bool, at: nat, m: nat, n: nat)
    ensures Acks(line, at, m + n) == Acks(line, at, m) + Acks(line, at + m, n)
  {}

  lemma BytesAtAppend(line: nat -> bool, at: nat, m: nat, n: nat)
    ensures BytesAtSample(line, at, m + n) == BytesAtSample(line, at, m) + BytesAtSample(line, at + 8 * m, n)
  {
    hide ByteAtSample;
    var whole, parts := BytesAtSample(line, at, m + n), BytesAtSample(line, at, m) + BytesAtSample(line, at + 8 * m, n);
    forall k | 0 <= k < m + n ensures whole[k] == parts[k] {
      if m <= k { assert at + 8 * k == (at + 8 * m) + 8 * (k - m); }
    }
  }

  lemma {:induction false} ReadsAnswer(line: nat -> bool, at: nat, k: nat, n: nat)
    ensures ReplyAll(line, at, I2c.ReadsCmds(k, n)) == BytesAtSample(line, at, k)
    ensures SamplesAll(I2c.ReadsCmds(k, n)) == 8 * k && OwedAll(I2c.ReadsCmds(k, n)) == k
  {
    hide I2c.ReadCmds, ReplyAll, SamplesAll, OwedAll, ByteAtSample;
    if k == 0 {
      OneAnswer(line, at, [], SendNow);
    } else {
      ReadsAnswer(line, at, k - 1, n);
      ReadAnswers(line, at + 8 * (k - 1), k == n);
      ReplyAppend(line, at, I2c.ReadsCmds(k - 1, n), I2c.ReadCmds(k == n));
      SamplesAppend(I2c.ReadsCmds(k - 1, n), I2c.ReadCmds(k == n));
      BytesAtAppend(line, at, k - 1, 1);
    }
  }

  /** Bytes the master writes: the address, the data, and the address again before a read. */
  function AckCount(txlen: nat, rxlen: nat): nat {
    1 + txlen + if rxlen > 0 then 1 else 0
  }

  function Head(addrW: byte, tx: seq<byte>): seq<Cmd> {
    I2c.StartCmds() + I2c.WriteCmds(addrW) + I2c.WritesCmds(tx)
  }

  function Tail(addrR: byte, k: nat, n: nat): seq<Cmd> {
    I2c.StartCmds() + I2c.WriteCmds(addrR) + I2c.ReadsCmds(k, n)
  }

  lemma HeadAnswers(line: nat -> bool, at: nat, addrW: byte, tx: seq<byte>)
    ensures ReplyAll(line, at, Head(addrW, tx)) == Acks(line, at, 1 + |tx|)
    ensures SamplesAll(Head(addrW, tx)) == 1 + |tx| && OwedAll(Head(addrW, tx)) == 1 + |tx|
  {
    hide I2c.StartCmds, I2c.WriteCmds, I2c.WritesCmds, ReplyAll, SamplesAll, OwedAll;
    var a, b, c := I2c.StartCmds(), I2c.WriteCmds(addrW), I2c.WritesCmds(tx);
    EndsAnswerNothing(line, at);
    WriteAnswers(line, at, addrW);
    WritesAnswer(line, at + 1, tx);
    ReplyAppend(line, at, a, b);
    ReplyAppend(line, at, a + b, c);
    SamplesAppend(a, b);
    SamplesAppend(a + b, c);
    AcksAppend(line, at, 1, |tx|);
  }

  lemma TailAnswers(line: nat -> bool, at: nat, addrR: byte, k: nat, n: nat)
    ensures ReplyAll(line, at, Tail(addrR, k, n)) == Acks(line, at, 1) + BytesAtSample(line, at + 1, k)
    ensures SamplesAll(Tail(addrR, k, n)) == 1 + 8 * k && OwedAll(Tail(addrR, k, n)) == 1 + k
  {
    hide I2c.StartCmds, I2c.WriteCmds, I2c.ReadsCmds, ReplyAll, SamplesAll, OwedAll;
    var a, b, c := I2c.StartCmds(), I2c.WriteCmds(addrR), I2c.ReadsCmds(k, n);
    EndsAnswerNothing(line, at);
    WriteAnswers(line, at, addrR);
    ReadsAnswer(line, at + 1, k, n);
    ReplyAppend(line, at, a, b);
    ReplyAppend(line, at, a + b, c);
    SamplesAppend(a, b);
    SamplesAppend(a + b, c);
  }

  /** The replies to a transaction: an acknowledge bit for every byte written, in order, then the bytes read. */
  lemma TransactionAnswers(line: nat -> bool, at: nat, addrW: byte, addrR: byte, tx: seq<byte>, rxlen: nat)
    ensures var nack := AckCount(|tx|, rxlen);
            && ReplyAll(line, at, I2c.TransactionCmds(addrW, addrR, tx, rxlen))
               == Acks(line, at, nack) + BytesAtSample(line, at + nack, rxlen)
            && OwedAll(I2c.TransactionCmds(addrW, addrR, tx, rxlen)) == nack + rxlen
  {
    hide I2c.StartCmds, I2c.WriteCmds, I2c.WritesCmds, I2c.ReadsCmds, I2c.StopCmds, ReplyAll, SamplesAll, OwedAll;
    var h, t, z := Head(addrW, tx), Tail(addrR, rxlen, rxlen), I2c.StopCmds();
    var m := if rxlen > 0 then t else [];
    HeadAnswers(line, at, addrW, tx);
    TailAnswers(line, at + 1 + |tx|, addrR, rxlen, rxlen);
    OneAnswer(line, at + 1 + |tx|, [], SendNow);
    EndsAnswerNothing(line, at + SamplesAll(h + m));
    ReplyAppend(line, at, h, m);
    ReplyAppend(line, at, h + m, z);
    SamplesAppend(h, m);
    SamplesAppend(h + m, z);
    if rxlen > 0 { AcksAppend(line, at, 1 + |tx|, 1); }
  }

  // ---------- emitters ----------

  /** Emitting x, of z bytes: it all fits, or the stream is marked failed; nothing else changes. */
  twostate predicate Emitted(m: Stream, x: seq<Cmd>, z: nat)
    reads m, m.usb, m.cmd, m.reply
  {
    && m.Valid() && m.lost == old(m.lost) && m.dropped == old(m.dropped)
    && (old(m.failed) ==> m.failed)
    && (!m.failed ==> m.log == old(m.log) + x)
    && (!old(m.failed) && old(m.n) + z <= CMDBUF ==> !m.failed && m.n == old(m.n) + z)
  }

  /** hold. */
  method Hold(m: Stream, value: byte, dir: byte)
    requires m.Valid()
    modifies m`n, m`pending, m`failed, m`log, m`held, m.cmd
    ensures Emitted(m, I2c.Hold(value, dir), 12)
  {
    hide EncodeAll, ReplyAll, SamplesAll, OwedAll;
    ghost var l0 := m.log;
    for i := 0 to 4
      invariant m.Valid() && m.lost == old(m.lost) && m.dropped == old(m.dropped)
      invariant old(m.failed) ==> m.failed
      invariant !m.failed ==> m.log == l0 + I2c.Hold(value, dir)[..i]
      invariant !old(m.failed) && old(m.n) + 3 * i <= CMDBUF ==> !m.failed && m.n == old(m.n) + 3 * i
    {
      m.Emit(SetLow(value, dir));
      assert I2c.Hold(value, dir)[..i + 1] == I2c.Hold(value, dir)[..i] + [SetLow(value, dir)];
    }
    assert I2c.Hold(value, dir)[..4] == I2c.Hold(value, dir);
  }

  /** i2c_start. */
  method I2cStart(m: Stream)
    requires m.Valid()
    modifies m`n, m`pending, m`failed, m`log, m`held, m.cmd
    ensures Emitted(m, I2c.StartCmds(), 27)
  {
    hide EncodeAll, ReplyAll, SamplesAll, OwedAll, I2c.Hold;
    ghost var l0 := m.log;
    Hold(m, I2c.BOTH, I2c.DIR_DRIVE);
    Hold(m, I2c.PIN_SCL, I2c.DIR_DRIVE);
    m.Emit(SetLow(0, I2c.DIR_DRIVE));
    SeqThree(l0, I2c.Hold(I2c.BOTH, I2c.DIR_DRIVE), I2c.Hold(I2c.PIN_SCL, I2c.DIR_DRIVE), [SetLow(0, I2c.DIR_DRIVE)]);
  }

  lemma SeqThree<T>(a: seq<T>, b: seq<T>, c: seq<T>, d: seq<T>)
    ensures a + b + c + d == a + (b + c + d)
  {}

  lemma SeqFour<T>(a: seq<T>, b: seq<T>, c: seq<T>, d: seq<T>, e: seq<T>)
    ensures a + b + c + d + e == a + (b + c + d + e)
  {}

  /** i2c_stop. */
  method I2cStop(m: Stream)
    requires m.Valid()
    modifies m`n, m`pending, m`failed, m`log, m`held, m.cmd
    ensures Emitted(m, I2c.StopCmds(), 39)
  {
    hide EncodeAll, ReplyAll, SamplesAll, OwedAll, I2c.Hold;
    ghost var l0 := m.log;
    Hold(m, 0, I2c.DIR_DRIVE);
    Hold(m, I2c.PIN_SCL, I2c.DIR_DRIVE);
    Hold(m, I2c.BOTH, I2c.DIR_DRIVE);
    m.Emit(SetLow(I2c.BOTH, 0));
    SeqFour(l0, I2c.Hold(0, I2c.DIR_DRIVE), I2c.Hold(I2c.PIN_SCL, I2c.DIR_DRIVE), I2c.Hold(I2c.BOTH, I2c.DIR_DRIVE),
            [SetLow(I2c.BOTH, 0)]);
  }

  /** i2c_write_byte. */
  method WriteByte(m: Stream, v: byte)
    requires m.Valid()
    modifies m`n, m`pending, m`failed, m`log, m`held, m.cmd
    ensures Emitted(m, I2c.WriteCmds(v), 12)
  {
    hide EncodeAll, ReplyAll, SamplesAll, OwedAll, Stream.Shape, Stream.Synced, Stream.Valid;
    ghost var l0 := m.log;
    m.Emit(SetLow(0, I2c.DIR_DRIVE));
    m.Emit(Out(Neg, [v]));
    m.Emit(SetLow(0, I2c.DIR_LISTEN));
    m.Emit(InBit);
  }

  /** i2c_read_byte. */
  method ReadByte(m: Stream, nak: bool)
    requires m.Valid()
    modifies m`n, m`pending, m`failed, m`log, m`held, m.cmd
    ensures Emitted(m, I2c.ReadCmds(nak), 12)
  {
    hide EncodeAll, ReplyAll, SamplesAll, OwedAll, Stream.Shape, Stream.Synced, Stream.Valid;
    m.Emit(SetLow(0, I2c.DIR_LISTEN));
    m.Emit(In(1));
    m.Emit(SetLow(0, I2c.DIR_DRIVE));
    m.Emit(OutBits(if nak then 0x80 else 0));
  }

  // ---------- ft232h_i2c_xfer ----------

  datatype Errno = NoSuchPart | BusFault
  datatype I2cResult = Done | Refused(errno: Errno) | UsbFailed

  function WriteAddr(addr: byte): byte { addr << 1 }
  function ReadAddr(addr: byte): byte { (addr << 1) | 1 }

  /** Which refusals mean that no part has the address: the first byte written, or the one after the data. */
  predicate IsAddress(k: nat, txlen: nat, rxlen: nat) {
    k == 0 || (rxlen > 0 && k == 1 + txlen)
  }

  /** The bytes a start, the address and k bytes take. */
  function HeadCost(k: nat): nat {
    39 + 12 * k
  }

  /** With no more than this in it the buffer had room for each byte and the stop, and was never flushed. */
  const UNFLUSHED := CMDBUF - 1 - COST_BYTE - COST_STOP + 12
  /** The write at which the buffer is first flushed. */
  const FIRST_FLUSH := 335

  /** Room for a byte and the stop, and then the byte's commands x; not ok when the room needed a flush that failed. */
  twostate predicate Stepped(m: Stream, x: seq<Cmd>, ok: bool)
    reads m, m.usb, m.cmd, m.reply
  {
    && m.Valid() && (old(m.dropped) ==> m.dropped) && (old(m.failed) ==> m.failed)
    && (ok ==> m.lost == old(m.lost) && (!m.failed ==> m.log == old(m.log) + x))
    && (!ok ==> (m.lost || m.failed) && m.log == old(m.log) && (old(m.lost) ==> m.lost))
    && (!old(m.failed) && old(m.n) < CMDBUF ==> !m.failed && (ok ==> m.n <= UNFLUSHED))
    && (!old(m.failed) && old(m.n) + 12 <= UNFLUSHED ==> ok && m.n == old(m.n) + 12 && unchanged(m.usb) && m.dropped == old(m.dropped))
    && (!old(m.failed) && UNFLUSHED < old(m.n) + 12 && old(m.n) < CMDBUF && OutcomeAt(old(m.usb.outcomes), 0) < 0 ==>
          !ok && m.n <= old(m.n) + 1 && Idled(m.usb, old(m.dropped), m.dropped))
  }

  method WriteStep(m: Stream, v: byte) returns (ok: bool)
    requires m.Valid() && (!m.failed ==> OwedAll(m.log) <= m.reply.Length)
    modifies m, m.cmd, m.reply, m.usb
    ensures Stepped(m, I2c.WriteCmds(v), ok)
  {
    hide EncodeAll, ReplyAll, SamplesAll, OwedAll, Later, OutcomeAt, I2c.WriteCmds, Stream.Synced, Stream.Shape, Stream.Valid;
    ok := m.Room(COST_BYTE + COST_STOP);
    if ok { WriteByte(m, v); }
  }

  method ReadStep(m: Stream, nak: bool) returns (ok: bool)
    requires m.Valid() && (!m.failed ==> OwedAll(m.log) <= m.reply.Length)
    modifies m, m.cmd, m.reply, m.usb
    ensures Stepped(m, I2c.ReadCmds(nak), ok)
  {
    hide EncodeAll, ReplyAll, SamplesAll, OwedAll, Later, OutcomeAt, I2c.ReadCmds, Stream.Synced, Stream.Shape, Stream.Valid;
    ok := m.Room(COST_BYTE + COST_STOP);
    if ok { ReadByte(m, nak); }
  }

  /** The address and txlen bytes; true when the loop ran to its end. */
  method SendHead(m: Stream, addrW: byte, tx: seq<byte>) returns (ghost i: nat)
    requires m.Valid() && m.n == 0 && m.log == [] && !m.failed && m.reply.Length >= 1 + |tx|
    modifies m, m.cmd, m.reply, m.usb
    ensures m.Valid() && i <= |tx|
    ensures !m.failed ==> m.log == Head(addrW, tx[..i])
    ensures !m.lost ==> !m.failed && i == |tx| && m.n <= 4051
    ensures if i == |tx| then m.lost == old(m.lost) else m.lost || m.failed
    ensures HeadCost(|tx|) <= UNFLUSHED ==> i == |tx| && !m.failed && m.n == HeadCost(|tx|)
    ensures |tx| >= FIRST_FLUSH && OutcomeAt(old(m.usb.outcomes), 0) < 0 ==>
              i == FIRST_FLUSH - 1 && !m.failed && m.n <= HeadCost(FIRST_FLUSH - 1) + 1 && Idled(m.usb, old(m.dropped), m.dropped)
  {
    hide EncodeAll, ReplyAll, SamplesAll, OwedAll, I2c.StartCmds, I2c.WriteCmds, I2c.WritesCmds, Later, OutcomeAt,
         Stream.Synced, Stream.Kept, Account, Laid;
    ghost var a, w := I2c.StartCmds(), I2c.WriteCmds(addrW);
    I2cStart(m);
    assert [] + a == a;
    WriteByte(m, addrW);
    i := 0;
    WritesStart(tx);
    assert (a + w) + [] == a + w;
    var k := 0;
    while k < |tx| && !m.failed
      invariant k <= |tx| && i == k && m.Valid()
      invariant !m.failed ==> m.log == Head(addrW, tx[..k])
      invariant m.lost == old(m.lost) && (!m.lost ==> !m.failed && m.n <= 4051)
      invariant OutcomeAt(old(m.usb.outcomes), 0) < 0 ==> k < FIRST_FLUSH
      invariant k < FIRST_FLUSH ==> !m.failed && m.n == HeadCost(k) && unchanged(m.usb) && m.dropped == old(m.dropped)
      decreases |tx| - k
    {
      HeadAnswers(m.usb.line, 0, addrW, tx[..k]);
      var ok := WriteStep(m, tx[k]);
      if !ok { break; }
      HeadStep(addrW, tx, k);
      k := k + 1;
      i := k;
    }
    assert tx[..|tx|] == tx;
  }

  lemma WritesStart(tx: seq<byte>)
    ensures I2c.WritesCmds(tx[..0]) == []
  {}

  lemma HeadStep(addrW: byte, tx: seq<byte>, k: nat)
    requires k < |tx|
    ensures Head(addrW, tx[..k + 1]) == Head(addrW, tx[..k]) + I2c.WriteCmds(tx[k])
  {
    hide I2c.StartCmds, I2c.WriteCmds;
    assert tx[..k + 1][..k] == tx[..k];
    SeqAssoc(I2c.StartCmds() + I2c.WriteCmds(addrW), I2c.WritesCmds(tx[..k]), I2c.WriteCmds(tx[k]));
  }

  lemma TailStep(addrR: byte, k: nat, n: nat)
    ensures Tail(addrR, k + 1, n) == Tail(addrR, k, n) + I2c.ReadCmds(k + 1 == n)
  {
    hide I2c.StartCmds, I2c.WriteCmds, I2c.ReadCmds;
    SeqAssoc(I2c.StartCmds() + I2c.WriteCmds(addrR), I2c.ReadsCmds(k, n), I2c.ReadCmds(k + 1 == n));
  }

  /** The repeated start, the address again, and rxlen bytes in; `sent` is what went out before it. */
  method SendTail(m: Stream, addrW: byte, addrR: byte, ghost sent: seq<byte>, rxlen: nat) returns (ghost i: nat)
    requires m.Valid() && rxlen > 0 && m.reply.Length >= 2 + |sent| + rxlen
    requires !m.failed ==> m.log == Head(addrW, sent)
    requires !m.lost ==> !m.failed && m.n <= 4051
    modifies m, m.cmd, m.reply, m.usb
    ensures m.Valid() && i <= rxlen && (old(m.lost) ==> m.lost) && (old(m.failed) ==> m.failed)
    ensures !m.failed ==> m.log == Head(addrW, sent) + Tail(addrR, i, rxlen)
    ensures !m.lost ==> !m.failed && i == rxlen && m.n <= 4051
    ensures if i == rxlen then m.lost == old(m.lost) else m.lost || m.failed
    ensures !old(m.failed) && old(m.n) + HeadCost(rxlen) <= UNFLUSHED ==>
              i == rxlen && !m.failed && m.n == old(m.n) + HeadCost(rxlen)
  {
    hide EncodeAll, ReplyAll, SamplesAll, OwedAll, I2c.StartCmds, I2c.WriteCmds, Head, Tail, Stream.Synced, Stream.Kept, Account, Laid;
    ghost var h := Head(addrW, sent);
    I2cStart(m);
    WriteByte(m, addrR);
    TailStart(h, addrR, rxlen);
    i := 0;
    var k := 0;
    while k < rxlen && !m.failed
      invariant k <= rxlen && i == k && m.Valid() && m.lost == old(m.lost) && (old(m.failed) ==> m.failed)
      invariant !old(m.failed) && old(m.n) + HeadCost(rxlen) <= UNFLUSHED ==> !m.failed && m.n == old(m.n) + HeadCost(k)
      invariant !m.failed ==> m.log == h + Tail(addrR, k, rxlen)
      invariant !m.lost ==> !m.failed && m.n <= if k == 0 then 4090 else 4051
      decreases rxlen - k
    {
      TailOwes(m.usb.line, addrW, sent, addrR, k, rxlen);
      var ok := ReadStep(m, k + 1 == rxlen);
      if !ok { break; }
      TailStep(addrR, k, rxlen);
      SeqAssoc(h, Tail(addrR, k, rxlen), I2c.ReadCmds(k + 1 == rxlen));
      k := k + 1;
      i := k;
    }
  }

  lemma TailStart(h: seq<Cmd>, addrR: byte, n: nat)
    ensures (h + I2c.StartCmds()) + I2c.WriteCmds(addrR) == h + Tail(addrR, 0, n)
  {
    hide I2c.StartCmds, I2c.WriteCmds;
    var a, w := I2c.StartCmds(), I2c.WriteCmds(addrR);
    assert a + w + [] == a + w;
    SeqAssoc(h, a, w);
  }

  lemma TailOwes(line: nat -> bool, addrW: byte, sent: seq<byte>, addrR: byte, k: nat, n: nat)
    ensures OwedAll(Head(addrW, sent) + Tail(addrR, k, n)) == 2 + |sent| + k
    ensures OwedAll(Head(addrW, sent)) == 1 + |sent|
  {
    hide OwedAll, Head, Tail;
    HeadAnswers(line, 0, addrW, sent);
    TailAnswers(line, 0, addrR, k, n);
    SamplesAppend(Head(addrW, sent), Tail(addrR, k, n));
  }

  predicate Acked(b: byte) {
    b & 1 == 0
  }

  /** Reply k is the first without an acknowledge, and rc says which kind of byte it answers. */
  predicate Refuses(reply: seq<byte>, txlen: nat, rxlen: nat, rc: I2cResult, k: nat) {
    && k < AckCount(txlen, rxlen) <= |reply| && !Acked(reply[k])
    && (forall j :: 0 <= j < k ==> Acked(reply[j]))
    && rc == Refused(if IsAddress(k, txlen, rxlen) then NoSuchPart else BusFault)
  }

  ghost predicate RefusedAt(reply: seq<byte>, txlen: nat, rxlen: nat, rc: I2cResult) {
    exists k :: Refuses(reply, txlen, rxlen, rc, k)
  }

  /** The end of ft232h_i2c_xfer: every acknowledge first, then the data. */
  method ReadReplies(reply: array<byte>, txlen: nat, rxlen: nat) returns (rc: I2cResult, rx: seq<byte>)
    requires reply.Length == AckCount(txlen, rxlen) + rxlen
    ensures rc.Done? <==> forall k :: 0 <= k < AckCount(txlen, rxlen) ==> Acked(reply[k])
    ensures rc.Done? ==> rx == reply[AckCount(txlen, rxlen)..]
    ensures !rc.Done? ==> RefusedAt(reply[..], txlen, rxlen, rc)
  {
    hide Acked;
    var nack := AckCount(txlen, rxlen);
    for ai := 0 to nack
      invariant forall k :: 0 <= k < ai ==> Acked(reply[k])
    {
      if !Acked(reply[ai]) {
        assert Refuses(reply[..], txlen, rxlen, Refused(if IsAddress(ai, txlen, rxlen) then NoSuchPart else BusFault), ai);
        return Refused(if IsAddress(ai, txlen, rxlen) then NoSuchPart else BusFault), [];
      }
    }
    rc, rx := Done, reply[nack..];
  }

  /** No part pulled the line low for the k-th byte written. */
  predicate Unacked(line: nat -> bool, at: nat, k: nat) {
    line(at + k)
  }

  lemma AckedIs(line: nat -> bool, at: nat, n: nat, k: nat)
    requires k < n
    ensures Acked(Acks(line, at, n)[k]) <==> !Unacked(line, at, k)
  {}

  /** Replies laid out as acknowledges and data say what the wire said. */
  lemma RepliesSay(line: nat -> bool, at: nat, nack: nat, rxlen: nat, reply: seq<byte>)
    requires reply == Acks(line, at, nack) + BytesAtSample(line, at + nack, rxlen)
    ensures forall k :: 0 <= k < nack ==> (Acked(reply[k]) <==> !Unacked(line, at, k))
    ensures |reply| == nack + rxlen && reply[nack..] == BytesAtSample(line, at + nack, rxlen)
  {
    hide Acked, Acks, BytesAtSample, Unacked;
    forall k | 0 <= k < nack ensures Acked(reply[k]) <==> !Unacked(line, at, k) { AckedIs(line, at, nack, k); }
  }

  /** A transaction that stops after i bytes written and j bytes read. */
  function CutCmds(addrW: byte, addrR: byte, tx: seq<byte>, rxlen: nat, i: nat, j: nat): seq<Cmd>
    requires i <= |tx| && j <= rxlen
  {
    Head(addrW, tx[..i]) + (if rxlen > 0 then Tail(addrR, j, rxlen) else []) + I2c.StopCmds()
  }

  lemma StoppedLog(line: nat -> bool, addrW: byte, addrR: byte, tx: seq<byte>, i: nat, j: nat, rxlen: nat)
    requires i <= |tx| && j <= rxlen
    ensures OwedAll(CutCmds(addrW, addrR, tx, rxlen, i, j)) <= AckCount(|tx|, rxlen) + rxlen
    ensures OwedAll(CutCmds(addrW, addrR, tx, rxlen, i, j)) > 0
    ensures i == |tx| && j == rxlen ==> CutCmds(addrW, addrR, tx, rxlen, i, j) == I2c.TransactionCmds(addrW, addrR, tx, rxlen)
  {
    hide OwedAll, I2c.StopCmds, I2c.StartCmds, I2c.WriteCmds, I2c.WritesCmds, I2c.ReadsCmds;
    assert tx[..|tx|] == tx;
    TailOwes(line, addrW, tx[..i], addrR, j, rxlen);
    EndsAnswerNothing(line, 0);
    assert Head(addrW, tx[..i]) + [] == Head(addrW, tx[..i]);
    SamplesAppend(Head(addrW, tx[..i]) + (if rxlen > 0 then Tail(addrR, j, rxlen) else []), I2c.StopCmds());
  }

  lemma CutIs(addrW: byte, addrR: byte, tx: seq<byte>, rxlen: nat, i: nat, j: nat)
    requires i <= |tx| && j <= rxlen
    ensures CutCmds(addrW, addrR, tx, rxlen, i, j)
         == (if rxlen > 0 then Head(addrW, tx[..i]) + Tail(addrR, j, rxlen) else Head(addrW, tx[..i])) + I2c.StopCmds()
  {
    hide Head, Tail, I2c.StopCmds;
    assert Head(addrW, tx[..i]) + [] == Head(addrW, tx[..i]);
  }

  /** The next call fails and those after it serve. */
  predicate FailsOnce(packet: nat, script: seq<int>) {
    packet >= PACKET_ROOM + 2 && OutcomeAt(script, 0) < 0 && Serves(Later(script, 1))
  }

  /** The whole transaction fits the buffer. */
  predicate Short(txlen: nat, rxlen: nat) {
    HeadCost(txlen) + (if rxlen > 0 then HeadCost(rxlen) else 0) <= UNFLUSHED
  }

  /** Everything emitted and flushed: i bytes were written and j read before the stop. */
  method Transact(m: Stream, addrW: byte, addrR: byte, tx: seq<byte>, rxlen: nat) returns (ok: bool, ghost i: nat, ghost j: nat)
    requires m.Valid() && m.n == 0 && m.log == [] && !m.failed && m.reply.Length == AckCount(|tx|, rxlen) + rxlen
    modifies m, m.cmd, m.reply, m.usb
    ensures m.Valid() && i <= |tx| && j <= rxlen
    ensures ok ==> m.log == CutCmds(addrW, addrR, tx, rxlen, i, j) && m.sent == |m.log|
    ensures ok ==> if i == |tx| && j == rxlen then m.lost == old(m.lost) else m.lost
    ensures !m.lost ==> ok && i == |tx| && j == rxlen && m.Synced()
    ensures ok && Short(|tx|, rxlen) ==> i == |tx| && j == rxlen
    ensures FailsOnce(m.usb.packetSize, old(m.usb.outcomes)) && !old(m.dropped) && |tx| >= FIRST_FLUSH && rxlen == 0 ==>
              ok && i == FIRST_FLUSH - 1
  {
    hide EncodeAll, ReplyAll, SamplesAll, OwedAll, I2c.StopCmds, I2c.TransactionCmds, Head, Tail, CutCmds, Serves, Later, OutcomeAt;
    i := SendHead(m, addrW, tx);
    j := 0;
    if rxlen > 0 && !m.failed {
      j := SendTail(m, addrW, addrR, tx[..i], rxlen);
    }
    I2cStop(m);
    StoppedLog(m.usb.line, addrW, addrR, tx, i, j, rxlen);
    CutIs(addrW, addrR, tx, rxlen, i, j);
    ok := false;
    if !m.failed { ok := m.Flush(); }
  }

  /** What a transaction's whole account says, once everything is flushed. */
  lemma TransactionAccount(line: nat -> bool, at: nat, addrW: byte, addrR: byte, tx: seq<byte>, rxlen: nat,
                           log: seq<Cmd>, reply: seq<byte>, replied: nat)
    requires log == I2c.TransactionCmds(addrW, addrR, tx, rxlen)
    requires replied == OwedAll(log) <= |reply| == AckCount(|tx|, rxlen) + rxlen
    requires reply[..replied] == ReplyAll(line, at, log)
    ensures var nack := AckCount(|tx|, rxlen);
            && (forall k :: 0 <= k < nack ==> (Acked(reply[k]) <==> !Unacked(line, at, k)))
            && reply[nack..] == BytesAtSample(line, at + nack, rxlen)
  {
    hide ReplyAll, OwedAll, I2c.TransactionCmds, Acks, BytesAtSample, Acked, Unacked;
    TransactionAnswers(line, at, addrW, addrR, tx, rxlen);
    assert reply[..replied] == reply;
    RepliesSay(line, at, AckCount(|tx|, rxlen), rxlen, reply);
  }

  /** The bus before and after commands that make up a transaction. */
  lemma BusCarries(wires: I2c.Bus, before: seq<Cmd>, after: seq<Cmd>, addrW: byte, addrR: byte, tx: seq<byte>, rxlen: nat)
    requires I2c.Free(I2c.Run(wires, before)) && after == before + I2c.TransactionCmds(addrW, addrR, tx, rxlen)
    ensures I2c.Free(I2c.Run(wires, after))
    ensures I2c.Run(wires, after).events == I2c.Run(wires, before).events + I2c.TransactionEvents(addrW, addrR, tx, rxlen)
  {
    hide I2c.Run, I2c.Free, I2c.TransactionCmds, I2c.TransactionEvents;
    I2c.RunAppend(wires, before, I2c.TransactionCmds(addrW, addrR, tx, rxlen));
    I2c.TransactionMeans(I2c.Run(wires, before), addrW, addrR, tx, rxlen);
  }

  /** Number k of the bytes written is the first that no part acknowledged. */
  predicate FirstRefusal(line: nat -> bool, at: nat, k: nat, nack: nat) {
    k < nack && Unacked(line, at, k) && forall j :: 0 <= j < k ==> !Unacked(line, at, j)
  }

  /** Every byte written was acknowledged. */
  predicate AllAcked(line: nat -> bool, at: nat, nack: nat) {
    forall k :: 0 <= k < nack ==> !Unacked(line, at, k)
  }

  /** What ft232h_i2c_xfer answers, from what the wire said: done with the bytes read, or refused by the errno of
      the first byte that no part acknowledged. */
  ghost predicate Answers(line: nat -> bool, at: nat, txlen: nat, rxlen: nat, rc: I2cResult, rx: seq<byte>) {
    var nack := AckCount(txlen, rxlen);
    && !rc.UsbFailed?
    && (rc.Done? <==> AllAcked(line, at, nack))
    && (rc.Done? ==> rx == BytesAtSample(line, at + nack, rxlen))
    && (rc.Refused? ==>
          exists k :: FirstRefusal(line, at, k, nack)
                      && rc.errno == if IsAddress(k, txlen, rxlen) then NoSuchPart else BusFault)
  }

  /** The chip has run the transaction up to i bytes written and j read, and its stop. */
  predicate CutAt(before: seq<Cmd>, after: seq<Cmd>, addr: byte, tx: seq<byte>, rxlen: nat, i: nat, j: nat) {
    i <= |tx| && j <= rxlen && after == before + CutCmds(WriteAddr(addr), ReadAddr(addr), tx, rxlen, i, j)
  }

  /** An answer comes with a transaction that ran, whole or cut short; whole exactly when no call failed, given that
      nothing was left over before. */
  ghost predicate Answered(before: seq<Cmd>, after: seq<Cmd>, addr: byte, tx: seq<byte>, rxlen: nat, clean: bool, unfailed: bool) {
    && (exists i: nat, j: nat :: CutAt(before, after, addr, tx, rxlen, i, j))
    && (clean ==> (unfailed <==> after == before + I2c.TransactionCmds(WriteAddr(addr), ReadAddr(addr), tx, rxlen)))
  }

  /** A transaction cut short is not the whole of it. */
  lemma WholeOnly(line: nat -> bool, addrW: byte, addrR: byte, tx: seq<byte>, rxlen: nat, i: nat, j: nat)
    requires i <= |tx| && j <= rxlen
    ensures CutCmds(addrW, addrR, tx, rxlen, i, j) == I2c.TransactionCmds(addrW, addrR, tx, rxlen) <==> i == |tx| && j == rxlen
  {
    hide OwedAll, CutCmds, I2c.TransactionCmds;
    CutOwes(line, addrW, addrR, tx, rxlen, i, j);
    CutOwes(line, addrW, addrR, tx, rxlen, |tx|, rxlen);
    StoppedLog(line, addrW, addrR, tx, |tx|, rxlen, rxlen);
    StoppedLog(line, addrW, addrR, tx, i, j, rxlen);
  }

  lemma SameTail<T>(a: seq<T>, b: seq<T>, c: seq<T>)
    ensures a + b == a + c <==> b == c
  {
    if a + b == a + c { assert b == (a + b)[|a|..] == (a + c)[|a|..] == c; }
  }

  lemma CutOwes(line: nat -> bool, addrW: byte, addrR: byte, tx: seq<byte>, rxlen: nat, i: nat, j: nat)
    requires i <= |tx| && j <= rxlen
    ensures OwedAll(CutCmds(addrW, addrR, tx, rxlen, i, j)) == 1 + i + if rxlen > 0 then 1 + j else 0
  {
    hide OwedAll, Head, Tail, I2c.StopCmds;
    TailOwes(line, addrW, tx[..i], addrR, j, rxlen);
    EndsAnswerNothing(line, 0);
    CutIs(addrW, addrR, tx, rxlen, i, j);
    SamplesAppend(if rxlen > 0 then Head(addrW, tx[..i]) + Tail(addrR, j, rxlen) else Head(addrW, tx[..i]), I2c.StopCmds());
  }

  /** ft232h_i2c_xfer, on the device its handle names.  `wires` is the bus before the chip ran anything.
      Unless a USB call fails, the chip runs the transaction and nothing else, the bus carries it and is free
      again, and the answer is what the wire said.  Once one has failed there may still be an answer, about a transaction
      cut short and from replies that never came: never when it fits the buffer, always when the first flush of a long
      write is what fails. */
  method I2cTransfer(usb: Usb, addr: byte, tx: seq<byte>, rxlen: nat, ghost wires: I2c.Bus)
    returns (rc: I2cResult, rx: seq<byte>)
    requires I2c.Free(I2c.Run(wires, usb.ran))
    modifies usb
    ensures old(usb.Healthy()) ==> Unfailed(usb) && usb.Healthy()
    ensures Unfailed(usb) ==> usb.queue == [] && usb.garbled == old(usb.garbled)
    ensures Unfailed(usb) ==> usb.ran == old(usb.ran) + I2c.TransactionCmds(WriteAddr(addr), ReadAddr(addr), tx, rxlen)
    ensures Unfailed(usb) ==> I2c.Free(I2c.Run(wires, usb.ran))
    ensures Unfailed(usb) ==>
      I2c.Run(wires, usb.ran).events == old(I2c.Run(wires, usb.ran)).events
                                        + I2c.TransactionEvents(WriteAddr(addr), ReadAddr(addr), tx, rxlen)
    ensures Unfailed(usb) ==> Answers(usb.line, old(usb.samples), |tx|, rxlen, rc, rx)
    ensures !rc.UsbFailed? ==> Answered(old(usb.ran), usb.ran, addr, tx, rxlen, old(usb.queue) == [], Unfailed(usb))
    ensures !rc.UsbFailed? && Short(|tx|, rxlen) && old(usb.queue) == [] ==> Unfailed(usb)
    ensures old(usb.queue) == [] && |tx| >= FIRST_FLUSH && rxlen == 0 && FailsOnce(usb.packetSize, old(usb.outcomes)) ==>
      && !rc.UsbFailed? && !Unfailed(usb)
      && usb.ran == old(usb.ran) + CutCmds(WriteAddr(addr), ReadAddr(addr), tx, rxlen, FIRST_FLUSH - 1, 0)
  {
    hide EncodeAll, ReplyAll, SamplesAll, OwedAll, I2c.Run, I2c.Free, I2c.TransactionCmds, I2c.TransactionEvents,
         WriteAddr, ReadAddr, BytesAtSample, Acked, Unacked, IsAddress, AckCount, Serves, Answers, Account, CutCmds, Laid,
         OutcomeAt, Later;
    var addrW, addrR := WriteAddr(addr), ReadAddr(addr);
    var reply := new byte[AckCount(|tx|, rxlen) + rxlen];
    var m := new Stream(usb, reply);
    var ok;
    ghost var i, j;
    ok, i, j := Transact(m, addrW, addrR, tx, rxlen);
    rc, rx := UsbFailed, [];
    if ok {
      LaidDone(m.held, m.cmd[..m.n], m.log, m.sent, m.ran0, usb.ran);
      WholeOnly(usb.line, addrW, addrR, tx, rxlen, i, j);
      assert CutAt(m.ran0, usb.ran, addr, tx, rxlen, i, j);
      SameTail(m.ran0, m.log, I2c.TransactionCmds(addrW, addrR, tx, rxlen));
      rc, rx := ReadReplies(reply, |tx|, rxlen);
    }
    if !m.lost {
      AccountDone(usb.line, m.base, m.log, m.sent, usb.samples, reply[..m.replied]);
      TransactionAccount(usb.line, m.base, addrW, addrR, tx, rxlen, m.log, reply[..], m.replied);
      BusCarries(wires, m.ran0, usb.ran, addrW, addrR, tx, rxlen);
      SaysAll(usb.line, m.base, |tx|, rxlen, reply[..], rc, rx);
    }
  }

  /** An account with everything sent. */
  lemma AccountDone(line: nat -> bool, base: nat, log: seq<Cmd>, sent: nat, samples: nat, got: seq<byte>)
    requires sent == |log| && Account(line, base, log, sent, samples, got)
    ensures samples == base + SamplesAll(log) && |got| == OwedAll(log) && got == ReplyAll(line, base, log)
  {
    hide ReplyAll, SamplesAll, OwedAll;
    assert log[..sent] == log;
  }

  /** All that was emitted has run. */
  lemma LaidDone(held: seq<Cmd>, queued: seq<byte>, log: seq<Cmd>, sent: nat, ran0: seq<Cmd>, ran: seq<Cmd>)
    requires Laid(held, queued, log, sent, ran0, ran) && sent == |log|
    ensures ran == ran0 + log
  {
    hide EncodeAll, ValidCmds, Strip;
    assert log[..sent] == log;
  }

  lemma SaysAll(line: nat -> bool, at: nat, txlen: nat, rxlen: nat, reply: seq<byte>, rc: I2cResult, rx: seq<byte>)
    requires var nack := AckCount(txlen, rxlen);
             && |reply| == nack + rxlen
             && (forall k :: 0 <= k < nack ==> (Acked(reply[k]) <==> !Unacked(line, at, k)))
             && reply[nack..] == BytesAtSample(line, at + nack, rxlen)
             && (rc.Done? <==> forall k :: 0 <= k < nack ==> Acked(reply[k]))
             && (rc.Done? ==> rx == reply[nack..])
             && (!rc.Done? ==> RefusedAt(reply, txlen, rxlen, rc))
    ensures Answers(line, at, txlen, rxlen, rc, rx)
  {
    hide Acked, Unacked, IsAddress, AckCount, BytesAtSample;
    if !rc.Done? {
      var k :| Refuses(reply, txlen, rxlen, rc, k);
      assert FirstRefusal(line, at, k, AckCount(txlen, rxlen));
    }
  }
}
