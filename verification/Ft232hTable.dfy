/**
 The device and handle tables of src/bus_ft232h.c: handles share a dongle by its match key,
 devices live while handles hold them, one dongle speaks one protocol in one SPI mode, and no
 clock is programmed faster than asked.
 */
module Ft232hTable {
  import opened Bytes
  import opened Crc32
  import opened FusionMath
  import opened Mpsse
  import opened Ft232h
  import opened SpiClock
  import Spi = SpiBus
  import I2c = I2cBus
  import Ft232hSpi

  const MAX_DEV := 4
  const MAX_HANDLE := 20

  // ---------- tables ----------

  datatype Proto = NoProto | I2cProto | SpiProto

  datatype Dev = Dev(usb: Usb?, refs: int, hz: nat, key: string, proto: Proto, spiHz: nat, spiMode: nat, adbus: byte)

  /** One caller's token: `cs` is negative on an I2C handle. */
  datatype Handle = Handle(used: bool, dev: nat, cs: int, mode: nat, hz: nat)

  const NO_DEV := Dev(null, 0, 0, "", NoProto, 0, 0, 0)
  const NO_HANDLE := Handle(false, 0, 0, 0, 0)

  function Holds(h: Handle, i: nat): int {
    if h.used && h.dev == i then 1 else 0
  }

  /** Handles that hold device i. */
  function Holders(hs: seq<Handle>, i: nat): int {
    if hs == [] then 0 else Holders(hs[..|hs| - 1], i) + Holds(hs[|hs| - 1], i)
  }

  lemma {:induction false} HoldersUpdate(hs: seq<Handle>, k: nat, h: Handle, i: nat)
    requires k < |hs|
    ensures Holders(hs[k := h], i) == Holders(hs, i) - Holds(hs[k], i) + Holds(h, i)
    decreases |hs|
  {
    hide Holds;
    var last := |hs| - 1;
    if k == last {
      assert hs[k := h][..last] == hs[..last];
    } else {
      assert hs[k := h][..last] == hs[..last][k := h];
      HoldersUpdate(hs[..last], k, h, i);
    }
  }

  lemma {:induction false} HolderCounts(hs: seq<Handle>, k: nat, i: nat)
    requires k < |hs|
    ensures 0 <= Holds(hs[k], i) <= Holders(hs, i)
    decreases |hs|
  {
    var last := |hs| - 1;
    HoldersNonneg(hs[..last], i);
    if k < last { HolderCounts(hs[..last], k, i); }
  }

  lemma {:induction false} HoldersNonneg(hs: seq<Handle>, i: nat)
    ensures Holders(hs, i) >= 0
    decreases |hs|
  {
    if hs != [] { HoldersNonneg(hs[..|hs| - 1], i); }
  }

  /** What the two tables keep over every sequence of calls. */
  ghost predicate Kept(devs: seq<Dev>, hs: seq<Handle>) {
    && |devs| == MAX_DEV && |hs| == MAX_HANDLE
    // a device is referenced once for each handle on it
    && (forall i :: 0 <= i < MAX_DEV ==> devs[i].refs == Holders(hs, i))
    && (forall i :: 0 <= i < MAX_DEV && devs[i].refs > 0 ==> LiveDev(devs[i]))
    // no two live devices have one key
    && (forall i, j :: 0 <= i < j < MAX_DEV && devs[i].refs > 0 && devs[j].refs > 0 ==> devs[i].key != devs[j].key)
    && (forall k :: 0 <= k < MAX_HANDLE && hs[k].used ==> hs[k].dev < MAX_DEV && Suits(devs[hs[k].dev], hs[k]))
  }

  predicate LiveDev(d: Dev) {
    && d.usb != null
    && (d.proto == I2cProto || d.proto == SpiProto)
    && (d.spiHz != 0 ==> (d.spiMode == 0 || d.spiMode == 2) && d.adbus == Spi.IdleLevels(d.spiMode == 2))
  }

  /** A handle speaks its device's protocol, and once configured shares its SPI mode. */
  predicate Suits(d: Dev, h: Handle) {
    && d.refs > 0
    && (h.cs >= 0 <==> d.proto == SpiProto)
    && h.cs <= 4
    && (h.hz != 0 ==> d.spiHz != 0 && d.spiMode == h.mode && d.proto == SpiProto && MIN_SPI_HZ <= h.hz <= MAX_SPI_HZ)
  }

  lemma HeldIsLive(devs: seq<Dev>, hs: seq<Handle>, k: nat)
    requires Kept(devs, hs) && k < MAX_HANDLE && hs[k].used
    ensures hs[k].dev < MAX_DEV && devs[hs[k].dev].refs > 0 && LiveDev(devs[hs[k].dev]) && Suits(devs[hs[k].dev], hs[k])
  {}

  /** What a node names: a match key, a bus clock when one was written, a chip select when it is SPI. */
  datatype Node = Node(key: string, hz: nat, hzSet: bool, cs: int)

  predicate ValidNode(n: Node) {
    -1 <= n.cs <= 4
  }

  datatype OpenError = BadNode | NoHandles | Busy | NoDevices | UsbError

  /** The node was parsed, and does not name both a chip select and a bus clock. */
  predicate GoodNode(node: Option<Node>) {
    node.Some? && !(node.value.cs >= 0 && node.value.hzSet)
  }

  function Wanted(n: Node): Proto {
    if n.cs >= 0 then SpiProto else I2cProto
  }

  /** Another use of the dongle stands in the way: another protocol, or another bus clock. */
  predicate Clashes(d: Dev, n: Node) {
    d.proto != Wanted(n) || (Wanted(n) == I2cProto && d.hz != n.hz)
  }

  predicate LiveAs(devs: seq<Dev>, i: nat, key: string) {
    i < |devs| && devs[i].refs > 0 && devs[i].key == key
  }

  predicate NoFreeHandle(hs: seq<Handle>) {
    forall k :: 0 <= k < |hs| ==> hs[k].used
  }

  predicate NoFreeDevice(devs: seq<Dev>) {
    forall i :: 0 <= i < |devs| ==> devs[i].refs > 0
  }

  /** No handle has the dongle of this key open. */
  ghost predicate Unclaimed(devs: seq<Dev>, key: string) {
    forall i: nat :: !LiveAs(devs, i, key)
  }

  lemma Claimed(devs: seq<Dev>, i: nat, key: string)
    requires LiveAs(devs, i, key)
    ensures !Unclaimed(devs, key)
  {}

  /** What a dongle nothing had open is sent for a node. */
  function Configured(n: Node): seq<Cmd>
    requires n.hz > 0
  {
    ConfigCmds(Wanted(n), LowByte(DivI2c(n.hz)), HighByte(DivI2c(n.hz))) + [Bogus]
  }

  lemma OneLive(devs: seq<Dev>, hs: seq<Handle>, i: nat, j: nat, key: string)
    requires Kept(devs, hs) && LiveAs(devs, i, key) && LiveAs(devs, j, key)
    ensures i == j
  {
    hide LiveDev, Suits, Holders;
  }

  /** A new handle on device i, whose reference count goes up with it. */
  lemma KeptOpen(devs: seq<Dev>, hs: seq<Handle>, slot: nat, i: nat, d: Dev, cs: int)
    requires Kept(devs, hs) && slot < MAX_HANDLE && !hs[slot].used && i < MAX_DEV
    requires d.refs == devs[i].refs + 1 && LiveDev(d) && -1 <= cs <= 4 && (cs >= 0 <==> d.proto == SpiProto)
    requires devs[i].refs > 0 ==> d == devs[i].(refs := devs[i].refs + 1)
    requires forall j :: 0 <= j < MAX_DEV && j != i && devs[j].refs > 0 ==> devs[j].key != d.key
    ensures Kept(devs[i := d], hs[slot := Handle(true, i, cs, 0, 0)])
  {
    var h := Handle(true, i, cs, 0, 0);
    var ds, ns := devs[i := d], hs[slot := h];
    forall j | 0 <= j < MAX_DEV ensures ds[j].refs == Holders(ns, j) {
      HoldersUpdate(hs, slot, h, j);
    }
    HoldersNonneg(hs, i);
    forall k | 0 <= k < MAX_HANDLE && ns[k].used ensures ns[k].dev < MAX_DEV && Suits(ds[ns[k].dev], ns[k]) {
      if k != slot { HeldIsLive(devs, hs, k); }
    }
  }

  /** A handle gone, and its device with it when it was the last. */
  lemma KeptClose(devs: seq<Dev>, hs: seq<Handle>, slot: nat, d: Dev)
    requires Kept(devs, hs) && slot < MAX_HANDLE && hs[slot].used
    requires var was := devs[hs[slot].dev]; d == if was.refs == 1 then NO_DEV else was.(refs := was.refs - 1)
    ensures hs[slot].dev < MAX_DEV && Kept(devs[hs[slot].dev := d], hs[slot := NO_HANDLE])
  {
    var i := hs[slot].dev;
    var ds, ns := devs[i := d], hs[slot := NO_HANDLE];
    HeldIsLive(devs, hs, slot);
    forall j | 0 <= j < MAX_DEV ensures ds[j].refs == Holders(ns, j) {
      HoldersUpdate(hs, slot, NO_HANDLE, j);
    }
    forall k | 0 <= k < MAX_HANDLE && ns[k].used ensures ns[k].dev < MAX_DEV && Suits(ds[ns[k].dev], ns[k]) {
      HeldIsLive(devs, hs, k);
      HolderCounts(ns, k, ns[k].dev);
      assert ds[ns[k].dev].refs == Holders(ns, ns[k].dev);
    }
  }

  /** A slot no handle holds may be written over with anything that is not referenced. */
  lemma KeptScratch(devs: seq<Dev>, hs: seq<Handle>, i: nat, d: Dev)
    requires Kept(devs, hs) && i < MAX_DEV && devs[i].refs == 0 && d.refs == 0
    ensures Kept(devs[i := d], hs)
  {
    forall k | 0 <= k < MAX_HANDLE && hs[k].used ensures Suits(devs[i := d][hs[k].dev], hs[k]) {
      HeldIsLive(devs, hs, k);
    }
  }

  /** An SPI handle configured at a mode its device had, or had none. */
  lemma KeptSetup(devs: seq<Dev>, hs: seq<Handle>, slot: nat, mode: nat, hz: nat)
    requires Kept(devs, hs) && slot < MAX_HANDLE && hs[slot].used && hs[slot].cs >= 0
    requires (mode == 0 || mode == 2) && MIN_SPI_HZ <= hz <= MAX_SPI_HZ
    requires var d := devs[hs[slot].dev]; d.proto == SpiProto && (d.spiHz == 0 || d.spiMode == mode)
    ensures var i := hs[slot].dev;
            Kept(devs[i := devs[i].(spiHz := hz, spiMode := mode, adbus := Spi.IdleLevels(mode == 2))],
                 hs[slot := hs[slot].(mode := mode, hz := hz)])
  {
    hide Spi.IdleLevels;
    var i := hs[slot].dev;
    var d := devs[i].(spiHz := hz, spiMode := mode, adbus := Spi.IdleLevels(mode == 2));
    var h := hs[slot].(mode := mode, hz := hz);
    var ds, ns := devs[i := d], hs[slot := h];
    HeldIsLive(devs, hs, slot);
    forall j | 0 <= j < MAX_DEV ensures ds[j].refs == Holders(ns, j) {
      HoldersUpdate(hs, slot, h, j);
    }
    forall k | 0 <= k < MAX_HANDLE && ns[k].used ensures ns[k].dev < MAX_DEV && Suits(ds[ns[k].dev], ns[k]) {
      HeldIsLive(devs, hs, k);
    }
  }

  // ---------- configuration of a dongle ----------

  /** What mpsse_init emits: clocking and drive for the protocol, its pins at rest, then an opcode that is
      answered only by a running engine. */
  function ConfigCmds(proto: Proto, lo: byte, hi: byte): seq<Cmd> {
    if proto == SpiProto then [Div5Off, AdaptiveOff, ThreePhaseOff, DriveZero(0, 0), SetLow(Spi.CS_ALL, Spi.SPI_DIR)]
    else [Div5Off, AdaptiveOff, ThreePhaseOn, ClkDiv(lo, hi), DriveZero(0x07, 0)] + I2c.Hold(I2c.BOTH, I2c.DIR_DRIVE)
  }

  function DivI2c(hz: nat): nat
    requires 0 < hz
  {
    var d := 20000000 / hz - 1;
    if d < 0 then 0 else d
  }

  lemma {:induction false} SilentCmds(line: nat -> bool, at: nat, cs: seq<Cmd>)
    requires forall k :: 0 <= k < |cs| ==> Owed(cs[k]) == 0 && Samples(cs[k]) == 0 && Reply(line, at, cs[k]) == []
    ensures ReplyAll(line, at, cs) == [] && SamplesAll(cs) == 0 && OwedAll(cs) == 0
    decreases |cs|
  {
    hide Owed, Samples;
    if cs != [] { SilentCmds(line, at, cs[..|cs| - 1]); }
  }

  lemma ConfigSilent(line: nat -> bool, at: nat, proto: Proto, lo: byte, hi: byte)
    ensures ReplyAll(line, at, ConfigCmds(proto, lo, hi)) == []
    ensures SamplesAll(ConfigCmds(proto, lo, hi)) == 0 && OwedAll(ConfigCmds(proto, lo, hi)) == 0
  {
    SilentCmds(line, at, ConfigCmds(proto, lo, hi));
  }

  /** cfg_spi. */
  method ConfigSpi(m: Stream)
    requires m.Valid() && m.n <= 6 && !m.failed
    modifies m`n, m`pending, m`failed, m`log, m`held, m.cmd
    ensures m.Valid() && m.lost == old(m.lost) && !m.failed && m.n <= 60
    ensures m.log == old(m.log) + [ThreePhaseOff, DriveZero(0, 0), SetLow(Spi.CS_ALL, Spi.SPI_DIR)]
  {
    hide EncodeAll, ReplyAll, SamplesAll, OwedAll, Encode, Stream.Shape, Stream.Synced, Stream.Valid;
    SmallCmd(ThreePhaseOff);
    SmallCmd(DriveZero(0, 0));
    SmallCmd(SetLow(Spi.CS_ALL, Spi.SPI_DIR));
    m.Emit(ThreePhaseOff);
    m.Emit(DriveZero(0, 0));
    m.Emit(SetLow(Spi.CS_ALL, Spi.SPI_DIR));
  }

  /** cfg_i2c. */
  method ConfigI2c(m: Stream, lo: byte, hi: byte)
    requires m.Valid() && m.n <= 6 && !m.failed
    modifies m`n, m`pending, m`failed, m`log, m`held, m.cmd
    ensures m.Valid() && m.lost == old(m.lost) && !m.failed && m.n <= 60
    ensures m.log == old(m.log) + ([ThreePhaseOn, ClkDiv(lo, hi), DriveZero(0x07, 0)] + I2c.Hold(I2c.BOTH, I2c.DIR_DRIVE))
  {
    hide EncodeAll, ReplyAll, SamplesAll, OwedAll, Encode, I2c.Hold, Stream.Shape, Stream.Synced, Stream.Valid;
    SmallCmd(ThreePhaseOn);
    SmallCmd(ClkDiv(lo, hi));
    SmallCmd(DriveZero(0x07, 0));
    m.Emit(ThreePhaseOn);
    m.Emit(ClkDiv(lo, hi));
    m.Emit(DriveZero(0x07, 0));
    Ft232h.Hold(m, I2c.BOTH, I2c.DIR_DRIVE);
  }

  /** The configuration, whole in the buffer. */
  method EmitConfig(m: Stream, proto: Proto, lo: byte, hi: byte)
    requires m.Valid() && m.n == 0 && m.log == [] && !m.failed
    modifies m`n, m`pending, m`failed, m`log, m`held, m.cmd
    ensures m.Valid() && m.lost == old(m.lost)
    ensures !m.failed && m.log == ConfigCmds(proto, lo, hi) && m.n <= 60
  {
    hide EncodeAll, ReplyAll, SamplesAll, OwedAll, I2c.Hold, Encode;
    SmallCmd(Div5Off);
    SmallCmd(AdaptiveOff);
    m.Emit(Div5Off);
    m.Emit(AdaptiveOff);
    assert m.log == [Div5Off, AdaptiveOff];
    if proto == SpiProto { ConfigSpi(m); } else { ConfigI2c(m, lo, hi); }
    ConfigParts(proto, lo, hi);
  }

  lemma ConfigParts(proto: Proto, lo: byte, hi: byte)
    ensures ConfigCmds(proto, lo, hi)
         == [Div5Off, AdaptiveOff] + if proto == SpiProto then [ThreePhaseOff, DriveZero(0, 0), SetLow(Spi.CS_ALL, Spi.SPI_DIR)]
            else [ThreePhaseOn, ClkDiv(lo, hi), DriveZero(0x07, 0)] + I2c.Hold(I2c.BOTH, I2c.DIR_DRIVE)
  {
    hide I2c.Hold;
  }

  /** mpsse_init past the mode change: the configuration, and the bad command that proves the engine listens. */
  method Configure(usb: Usb, proto: Proto, lo: byte, hi: byte) returns (ok: bool)
    modifies usb
    ensures old(usb.Healthy()) ==> usb.Healthy()
    ensures Unfailed(usb) ==> ok && usb.queue == [] && usb.garbled == old(usb.garbled)
    ensures ok ==> usb.ran == old(usb.ran) + (ConfigCmds(proto, lo, hi) + [Bogus])
    ensures old(usb.queue) == [] ==> usb.faults >= old(usb.faults) && (ok ==> Unfailed(usb))
    ensures old(usb.Healthy()) ==> Unfailed(usb)
  {
    hide EncodeAll, ReplyAll, SamplesAll, OwedAll, ConfigCmds, Serves, Account, Laid, OutcomeAt, Later;
    var echo := new byte[2];
    var m := new Stream(usb, echo);
    EmitConfig(m, proto, lo, hi);
    ghost var cs := ConfigCmds(proto, lo, hi);
    ConfigSilent(usb.line, m.base, proto, lo, hi);
    ok := m.Flush();
    if !ok { return; }
    ok := SyncExchange(m, cs, echo);
  }

  method SyncExchange(m: Stream, ghost cs: seq<Cmd>, echo: array<byte>) returns (ok: bool)
    requires m.Valid() && m.n == 0 && m.log == cs && !m.failed && m.reply == echo && echo.Length == 2
    requires OwedAll(cs) == 0 && ReplyAll(m.usb.line, m.base, cs) == []
    modifies m, m.cmd, m.reply, m.usb
    ensures m.Valid()
    ensures !m.lost ==> ok && m.usb.queue == []
    ensures ok ==> m.usb.ran == m.ran0 + (cs + [Bogus]) && m.lost == old(m.lost)
  {
    hide EncodeAll, ReplyAll, SamplesAll, OwedAll, Serves, Account, Laid, OutcomeAt, Later, Stream.Kept;
    OwedSnoc(cs, Bogus);
    SmallCmd(Bogus);
    m.Emit(Bogus);
    ok := m.Flush();
    if ok { LaidDone(m.held, m.cmd[..m.n], m.log, m.sent, m.ran0, m.usb.ran); }
    if !m.lost {
      AccountDone(m.usb.line, m.base, m.log, m.sent, m.usb.samples, echo[..m.replied]);
      OneAnswer(m.usb.line, m.base, cs, Bogus);
      assert echo[..m.replied] == echo[..];
    }
    if ok && (echo[0] != 0xFA || echo[1] != MC_BOGUS) { ok := false; }
  }

  /** mpsse_init: two calls bring the chip into MPSSE mode; those before them go unchecked. */
  method MpsseInit(usb: Usb, proto: Proto, hz: nat) returns (ok: bool)
    requires hz > 0
    modifies usb
    ensures old(usb.Healthy()) ==> Unfailed(usb) && usb.Healthy()
    ensures Unfailed(usb) ==> ok && usb.queue == [] && usb.garbled == old(usb.garbled)
    ensures ok ==> usb.ran == old(usb.ran) + (ConfigCmds(proto, LowByte(DivI2c(hz)), HighByte(DivI2c(hz))) + [Bogus])
    ensures old(usb.queue) == [] ==> (ok <==> Unfailed(usb))
  {
    hide ConfigCmds, DivI2c, LowByte, HighByte, Serves, OutcomeAt, Later;
    ok := usb.Control();
    if !ok { return; }
    ok := usb.Control();
    if !ok { return; }
    ok := Configure(usb, proto, LowByte(DivI2c(hz)), HighByte(DivI2c(hz)));
  }

  /** A configured I2C dongle leaves a free bus free, and nothing is heard on it. */
  lemma ConfigFree(b: I2c.Bus, lo: byte, hi: byte)
    requires I2c.Free(b)
    ensures var r := I2c.Run(b, ConfigCmds(I2cProto, lo, hi) + [Bogus]); I2c.Free(r) && r.events == b.events
  {
    hide I2c.Run, I2c.Run1;
    var pre := [Div5Off, AdaptiveOff, ThreePhaseOn, ClkDiv(lo, hi), DriveZero(0x07, 0)];
    var hold := I2c.Hold(I2c.BOTH, I2c.DIR_DRIVE);
    I2c.RunAppend(b, pre + hold, [Bogus]);
    I2c.RunAppend(b, pre, hold);
    PinlessRun(b, pre);
    I2c.HoldHeard(b, I2c.BOTH, I2c.DIR_DRIVE);
    I2c.Constants();
    assert b.events + [] == b.events;
    PinlessRun(I2c.Run(b, hold), [Bogus]);
  }

  predicate Pinless(c: Cmd) {
    c.Div5Off? || c.AdaptiveOff? || c.ThreePhaseOn? || c.ThreePhaseOff? || c.ClkDiv? || c.DriveZero? || c.Bogus?
  }

  /** Commands that set the engine up move no pin. */
  lemma {:induction false} PinlessRun(b: I2c.Bus, cs: seq<Cmd>)
    requires forall k :: 0 <= k < |cs| ==> Pinless(cs[k])
    ensures I2c.Run(b, cs) == b
    decreases |cs|
  {
    if cs != [] {
      PinlessRun(b, cs[..|cs| - 1]);
      assert b.events + [] == b.events;
    }
  }

  /** Once a mode is set up, nothing is selected and the clock rests at that mode's level. */
  lemma SetupQuiet(idle: bool, b: Spi.Bus, lo: byte, hi: byte)
    requires b.pins.cs == Spi.CS_ALL
    ensures Spi.Quiet(idle, Spi.Run(idle, b, [ClkDiv(lo, hi), SetLow(Spi.IdleLevels(idle), Spi.SPI_DIR)]))
  {
    var c, s := ClkDiv(lo, hi), SetLow(Spi.IdleLevels(idle), Spi.SPI_DIR);
    assert [c, s] == [c] + [s];
    hide Spi.Run;
    Spi.RunAppend(idle, b, [c], [s]);
    Spi.RunOne(idle, b, c);
    Spi.RunOne(idle, Spi.Run(idle, b, [c]), s);
    Spi.Levels(idle, 0);
  }

  /** No handle is recorded at a faster clock than it asked for. */
  predicate NoFaster(hs: seq<Handle>, asked: seq<nat>) {
    |hs| == |asked| && forall k :: 0 <= k < |hs| && hs[k].used ==> hs[k].hz <= asked[k]
  }

  /** The chip runs at some clock no faster than hz. */
  predicate Within(ran: seq<Cmd>, hz: nat) {
    ClockOf(ran).Some? && HzForDiv(ClockOf(ran).value) <= hz
  }

  /** The chip's clock is no faster than the device's record of it. */
  predicate Clocked(d: Dev, ran: seq<Cmd>) {
    d.spiHz != 0 ==> Within(ran, d.spiHz)
  }

  // ---------- the tables as the program keeps them ----------

  class Tables {
    const dev: array<Dev>
    const handle: array<Handle>
    /** The rate each handle last asked for. */
    ghost var asked: seq<nat>

    ghost predicate Valid()
      reads this, dev, handle
    {
      && dev.Length == MAX_DEV && handle.Length == MAX_HANDLE && Kept(dev[..], handle[..])
      && NoFaster(handle[..], asked)
    }

    constructor ()
      ensures Valid() && fresh(dev) && fresh(handle)
      ensures forall k :: 0 <= k < MAX_HANDLE ==> !handle[k].used
    {
      dev := new Dev[MAX_DEV](i => NO_DEV);
      handle := new Handle[MAX_HANDLE](i => NO_HANDLE);
      asked := seq(MAX_HANDLE, i => 0);
      new;
      forall i | 0 <= i < MAX_DEV ensures Holders(handle[..], i) == 0 { NoHolders(handle[..], i); }
    }

    /** The first free handle, or None. */
    method FreeHandle() returns (slot: Option<nat>)
      requires Valid()
      ensures slot.Some? ==> slot.value < MAX_HANDLE && !handle[slot.value].used
      ensures slot.None? ==> forall k :: 0 <= k < MAX_HANDLE ==> handle[k].used
    {
      for i := 0 to MAX_HANDLE
        invariant forall k :: 0 <= k < i ==> handle[k].used
      {
        if !handle[i].used { return Some(i); }
      }
      slot := None;
    }

    /** The live device with this key, and the first slot no handle holds. */
    method FindDevice(key: string) returns (found: Option<nat>, free: Option<nat>)
      requires Valid()
      ensures found.Some? ==> found.value < MAX_DEV && dev[found.value].refs > 0 && dev[found.value].key == key
      ensures found.None? ==> forall i :: 0 <= i < MAX_DEV && dev[i].refs > 0 ==> dev[i].key != key
      ensures found.None? && free.Some? ==> free.value < MAX_DEV && dev[free.value].refs == 0
      ensures found.None? && free.None? ==> forall i :: 0 <= i < MAX_DEV ==> dev[i].refs > 0
    {
      found, free := None, None;
      for i := 0 to MAX_DEV
        invariant forall j :: 0 <= j < i && dev[j].refs > 0 ==> dev[j].key != key
        invariant free.Some? ==> free.value < i && dev[free.value].refs == 0
        invariant free.None? ==> forall j :: 0 <= j < i ==> dev[j].refs > 0
      {
        RefsNonneg(dev[..], handle[..], i);
        if dev[i].refs > 0 {
          if dev[i].key == key { return Some(i), free; }
        } else if free.None? {
          free := Some(i);
        }
      }
    }

    /** ft232h_open on a parsed node.  `u` is what ft_usb_open finds for the key, null when nothing.
        A failed open leaves every handle and every reference count as it was. */
    method Open(node: Option<Node>, u: Usb?, lockOk: bool) returns (token: int, err: Option<OpenError>)
      requires Valid() && (node.Some? ==> ValidNode(node.value) && node.value.hz > 0)
      modifies dev, handle, u
      ensures Valid()
      ensures token >= 0 <==> err.None?
      ensures err == Some(BadNode) <==> !GoodNode(node)
      ensures err == Some(NoHandles) <==> GoodNode(node) && NoFreeHandle(old(handle[..]))
      ensures err == Some(Busy) <==>
                GoodNode(node) && !NoFreeHandle(old(handle[..])) &&
                exists i: nat :: LiveAs(old(dev[..]), i, node.value.key) && Clashes(old(dev[..])[i], node.value)
      ensures err == Some(NoDevices) <==>
                GoodNode(node) && !NoFreeHandle(old(handle[..])) && NoFreeDevice(old(dev[..]))
                && Unclaimed(old(dev[..]), node.value.key)
      ensures err == Some(UsbError) ==>
                GoodNode(node) && !NoFreeHandle(old(handle[..])) && Unclaimed(old(dev[..]), node.value.key)
                && !NoFreeDevice(old(dev[..])) && (u == null || !lockOk || !Unfailed(u))
      ensures GoodNode(node) && !NoFreeHandle(old(handle[..])) && Unclaimed(old(dev[..]), node.value.key) && !NoFreeDevice(old(dev[..])) ==>
                (u == null || !lockOk || (old(u.queue) == [] && !Unfailed(u)) ==> err == Some(UsbError))
      ensures token >= 0 && Unclaimed(old(dev[..]), node.value.key) ==>
                u != null && token < MAX_HANDLE && handle[token].dev < MAX_DEV && dev[handle[token].dev].usb == u
                && u.ran == old(u.ran) + Configured(node.value)
      ensures token >= 0 && !Unclaimed(old(dev[..]), node.value.key) && u != null ==> unchanged(u)
      ensures u != null && old(u.Healthy()) ==> Unfailed(u) && u.Healthy()
      ensures token < 0 ==> handle[..] == old(handle[..])
      ensures token < 0 ==> forall i :: 0 <= i < MAX_DEV ==>
                dev[i].refs == old(dev[i].refs) && (dev[i].refs > 0 ==> dev[i] == old(dev[i]))
      ensures token >= 0 ==>
        && node.Some? && token < MAX_HANDLE && !old(handle[token].used)
        && handle[token].used && handle[token].cs == node.value.cs && handle[token].hz == 0
        && dev[handle[token].dev].key == node.value.key
        && (forall k :: 0 <= k < MAX_HANDLE && k != token ==> handle[k] == old(handle[k]))
        && (forall i :: 0 <= i < MAX_DEV ==> dev[i].refs == old(dev[i].refs) + Holds(handle[token], i))
    {
      hide Kept, NoFaster, LiveDev, Suits, Holders, Serves, LiveAs, Clashes, NoFreeDevice;
      if node.None? { return -1, Some(BadNode); }
      var n := node.value;
      var want := if n.cs >= 0 then SpiProto else I2cProto;
      if want == SpiProto && n.hzSet { return -1, Some(BadNode); }
      var hslot := FreeHandle();
      if hslot.None? { return -1, Some(NoHandles); }
      assert !NoFreeHandle(handle[..]) by { assert !handle[..][hslot.value].used; }
      token, err := OpenOn(n, want, hslot.value, u, lockOk);
    }

    /** ft232h_open once it has a handle to give. */
    method OpenOn(n: Node, want: Proto, hslot: nat, u: Usb?, lockOk: bool) returns (token: int, err: Option<OpenError>)
      requires Valid() && ValidNode(n) && n.hz > 0 && want == Wanted(n) && hslot < MAX_HANDLE && !handle[hslot].used
      modifies dev, handle, u
      ensures Valid() && (token >= 0 <==> err.None?) && (token >= 0 ==> token == hslot)
      ensures err.Some? ==> err.value in {Busy, NoDevices, UsbError}
      ensures err == Some(Busy) <==>
                exists i: nat :: LiveAs(old(dev[..]), i, n.key) && Clashes(old(dev[..])[i], n)
      ensures err == Some(NoDevices) <==> NoFreeDevice(old(dev[..])) && Unclaimed(old(dev[..]), n.key)
      ensures err == Some(UsbError) ==>
                Unclaimed(old(dev[..]), n.key) && !NoFreeDevice(old(dev[..])) && (u == null || !lockOk || !Unfailed(u))
      ensures Unclaimed(old(dev[..]), n.key) && !NoFreeDevice(old(dev[..])) ==>
                (u == null || !lockOk || (old(u.queue) == [] && !Unfailed(u)) ==> err == Some(UsbError))
      ensures token >= 0 && Unclaimed(old(dev[..]), n.key) ==>
                u != null && handle[hslot].dev < MAX_DEV && dev[handle[hslot].dev].usb == u && u.ran == old(u.ran) + Configured(n)
      ensures token >= 0 && !Unclaimed(old(dev[..]), n.key) && u != null ==> unchanged(u)
      ensures u != null && old(u.Healthy()) ==> Unfailed(u) && u.Healthy()
      ensures token < 0 ==> handle[..] == old(handle[..])
      ensures token < 0 ==> forall i :: 0 <= i < MAX_DEV ==>
                dev[i].refs == old(dev[i].refs) && (dev[i].refs > 0 ==> dev[i] == old(dev[i]))
      ensures token >= 0 ==>
        && handle[..] == old(handle[..])[hslot := Handle(true, handle[hslot].dev, n.cs, 0, 0)]
        && handle[hslot].dev < MAX_DEV && dev[handle[hslot].dev].key == n.key
        && (forall i :: 0 <= i < MAX_DEV ==> dev[i].refs == old(dev[i].refs) + Holds(handle[hslot], i))
    {
      hide Kept, NoFaster, LiveDev, Suits, Holders, Serves;
      var found, free := FindDevice(n.key);
      if found.Some? {
        assert LiveAs(dev[..], found.value, n.key);
        Claimed(dev[..], found.value, n.key);
        forall i: nat | LiveAs(dev[..], i, n.key) ensures i == found.value {
          OneLive(dev[..], handle[..], i, found.value, n.key);
        }
        var d := dev[found.value];
        if d.proto != want { return -1, Some(Busy); }
        if want == I2cProto && d.hz != n.hz { return -1, Some(Busy); }
        JoinKept(dev[..], handle[..], hslot, found.value, n.cs);
        Attach(hslot, found.value, d.(refs := d.refs + 1), n.cs);
        token, err := hslot, None;
      } else if free.None? {
        token, err := -1, Some(NoDevices);
      } else {
        assert !NoFreeDevice(dev[..]) by { assert dev[..][free.value].refs == 0; }
        token, err := OpenNew(n, want, hslot, free.value, u, lockOk);
      }
    }

    /** The tail both ways of opening share: the device entry and the new handle. */
    method Attach(hslot: nat, i: nat, d: Dev, cs: int)
      requires hslot < handle.Length && i < dev.Length && dev.Length == MAX_DEV && handle.Length == MAX_HANDLE
      requires Kept(dev[..][i := d], handle[..][hslot := Handle(true, i, cs, 0, 0)]) && NoFaster(handle[..], asked)
      modifies dev, handle
      ensures Valid()
      ensures dev[..] == old(dev[..])[i := d] && handle[..] == old(handle[..])[hslot := Handle(true, i, cs, 0, 0)]
    {
      hide Kept, NoFaster;
      NoFasterFresh(handle[..], asked, hslot, Handle(true, i, cs, 0, 0));
      dev[i] := d;
      handle[hslot] := Handle(true, i, cs, 0, 0);
      assert dev[..] == old(dev[..])[i := d];
      assert handle[..] == old(handle[..])[hslot := Handle(true, i, cs, 0, 0)];
    }

    /** Claim and configure a dongle nothing has open. */
    method OpenNew(n: Node, want: Proto, hslot: nat, i: nat, u: Usb?, lockOk: bool) returns (token: int, err: Option<OpenError>)
      requires Valid() && ValidNode(n) && n.hz > 0 && want == (if n.cs >= 0 then SpiProto else I2cProto)
      requires hslot < MAX_HANDLE && !handle[hslot].used && i < MAX_DEV && dev[i].refs == 0
      requires forall j :: 0 <= j < MAX_DEV && dev[j].refs > 0 ==> dev[j].key != n.key
      modifies dev, handle, u
      ensures Valid() && (token >= 0 <==> err.None?) && (token >= 0 ==> token == hslot)
      ensures err.Some? ==> err == Some(UsbError)
      ensures err.Some? ==> u == null || !lockOk || !Unfailed(u)
      ensures u == null || !lockOk || (old(u.queue) == [] && !Unfailed(u)) ==> err.Some?
      ensures token >= 0 ==> dev[i].usb == u && u.ran == old(u.ran) + Configured(n)
      ensures u != null && old(u.Healthy()) ==> Unfailed(u) && u.Healthy()
      ensures token < 0 ==> handle[..] == old(handle[..])
      ensures token < 0 ==> forall j :: 0 <= j < MAX_DEV ==>
                dev[j].refs == old(dev[j].refs) && (dev[j].refs > 0 ==> dev[j] == old(dev[j]))
      ensures token >= 0 ==> handle[..] == old(handle[..])[hslot := Handle(true, i, n.cs, 0, 0)]
      ensures token >= 0 ==> dev[i].key == n.key && dev[i].refs == 1
                             && forall j :: 0 <= j < MAX_DEV && j != i ==> dev[j] == old(dev[j])
    {
      hide Kept, NoFaster, LiveDev, Suits, Holders, Serves;
      var d := Dev(null, 0, n.hz, n.key, want, 0, 0, 0);
      Scratch(i, d);
      if u == null { return -1, Some(UsbError); }
      if !lockOk { return -1, Some(UsbError); }
      d := d.(usb := u, adbus := if want == SpiProto then Spi.CS_ALL else 0);
      Scratch(i, d);
      var ok := MpsseInit(u, want, n.hz);
      if !ok {
        Scratch(i, d.(usb := null));
        return -1, Some(UsbError);
      }
      assert u.ran == old(u.ran) + Configured(n);
      FreshKept(dev[..], handle[..], hslot, i, d.(refs := 1), n.cs);
      Attach(hslot, i, d.(refs := 1), n.cs);
      token, err := hslot, None;
    }

    /** A slot nothing references is written over. */
    method Scratch(i: nat, d: Dev)
      requires Valid() && i < MAX_DEV && dev[i].refs == 0 && d.refs == 0
      modifies dev
      ensures Valid() && dev[..] == old(dev[..])[i := d]
    {
      hide Kept, NoFaster;
      KeptScratch(dev[..], handle[..], i, d);
      dev[i] := d;
      assert dev[..] == old(dev[..])[i := d];
    }

    /** ft232h_close. */
    method Close(h: int)
      requires Valid()
      modifies dev, handle
      ensures Valid()
      ensures h < 0 || h >= MAX_HANDLE ==> handle[..] == old(handle[..]) && dev[..] == old(dev[..])
      ensures 0 <= h < MAX_HANDLE ==>
        && handle[..] == old(handle[..])[h := NO_HANDLE]
        && forall i :: 0 <= i < MAX_DEV ==> dev[i].refs == old(dev[i].refs) - Holds(old(handle[h]), i)
    {
      hide Kept, NoFaster, Suits, Holders;
      if h < 0 || h >= MAX_HANDLE { return; }
      var H := handle[h];
      NoFasterFresh(handle[..], asked, h, NO_HANDLE);
      if H.used {
        HeldIsLive(dev[..], handle[..], h);
        var d := dev[H.dev];
        d := d.(refs := d.refs - 1);
        if d.refs == 0 { d := NO_DEV; }
        KeptClose(dev[..], handle[..], h, d);
        dev[H.dev] := d;
        assert dev[..] == old(dev[..])[H.dev := d];
      } else {
        UnusedCleared(dev[..], handle[..], h);
      }
      handle[h] := NO_HANDLE;
      assert handle[..] == old(handle[..])[h := NO_HANDLE];
    }

    /** ft232h_spi_setup; `u` is the device behind the token.  The clock programmed is never faster than asked. */
    method SpiSetup(h: int, mode: nat, hz: nat, u: Usb) returns (ok: bool)
      requires Valid() && Behind(h, u)
      modifies this`asked, dev, handle, u
      ensures Valid()
      ensures forall k :: 0 <= k < MAX_HANDLE && k != h ==> handle[k] == old(handle[k]) && asked[k] == old(asked)[k]
      ensures forall i :: 0 <= i < MAX_DEV ==> dev[i].refs == old(dev[i].refs) && dev[i].key == old(dev[i].key)
      ensures ok ==> 0 <= h < MAX_HANDLE && handle[h].used && handle[h].mode == mode && MIN_SPI_HZ <= handle[h].hz <= hz
      ensures ok ==> asked[h] == hz
      ensures !ok ==> handle[..] == old(handle[..]) && asked == old(asked)
      ensures !old(Configurable(h, mode, hz)) ==> !ok && unchanged(u) && unchanged(dev)
      ensures old(u.Healthy()) ==> Unfailed(u) && u.Healthy()
      ensures Unfailed(u) && old(Configurable(h, mode, hz)) ==>
        && ok && u.queue == [] && u.garbled == old(u.garbled)
        && u.ran == old(u.ran) + SetupCmds(mode == 2, DivSpi(hz))
        && ClockOf(u.ran) == Some(DivSpi(hz)) && handle[h].hz == HzForDiv(DivSpi(hz))
        && Clocked(dev[handle[h].dev], u.ran)
    {
      hide Kept, NoFaster, Suits, Holders, LiveDev, DivSpi, HzForDiv, SetupCmds, ClockOf, Clocked, Serves;
      ok := false;
      if h < 0 || h >= MAX_HANDLE { return; }
      var H := handle[h];
      if !H.used { return; }
      HeldUsable(dev[..], handle[..], h);
      var d := dev[H.dev];
      if H.cs < 0 || d.proto != SpiProto { return; }
      if mode != 0 && mode != 2 { return; }
      if hz < MIN_SPI_HZ || hz > MAX_SPI_HZ { return; }
      if d.spiHz != 0 && d.spiMode != mode { return; }
      ok := SetupOn(h, mode, hz, u);
    }

    /** The locked part of ft232h_spi_setup, once its checks have passed. */
    method SetupOn(h: nat, mode: nat, hz: nat, u: Usb) returns (ok: bool)
      requires Valid() && Configurable(h, mode, hz)
      modifies this`asked, dev, handle, u
      ensures Valid()
      ensures handle[..] == if ok then old(handle[..])[h := old(handle[h]).(mode := mode, hz := HzForDiv(DivSpi(hz)))]
                            else old(handle[..])
      ensures |old(asked)| == MAX_HANDLE && asked == if ok then old(asked)[h := hz] else old(asked)
      ensures MIN_SPI_HZ <= HzForDiv(DivSpi(hz)) <= hz
      ensures forall i :: 0 <= i < MAX_DEV ==> dev[i].refs == old(dev[i].refs) && dev[i].key == old(dev[i].key)
      ensures ok ==> dev[handle[h].dev].spiHz == HzForDiv(DivSpi(hz))
      ensures old(u.Healthy()) ==> Unfailed(u) && u.Healthy()
      ensures Unfailed(u) ==> ok && u.queue == [] && u.garbled == old(u.garbled)
      ensures Unfailed(u) ==> u.ran == old(u.ran) + SetupCmds(mode == 2, DivSpi(hz))
      ensures Unfailed(u) ==> ClockOf(u.ran) == Some(DivSpi(hz)) && Clocked(dev[handle[h].dev], u.ran)
    {
      AskedLength(handle[..], asked);
      hide Kept, NoFaster, Suits, Holders, LiveDev, Spi.IdleLevels, DivSpi, HzForDiv, SetupCmds, ClockOf, Serves;
      var H := handle[h];
      var d := dev[H.dev];
      var div := DivSpi(hz);
      var actual := HzForDiv(div);
      DivSpiExact(hz);
      KeptLevels(dev[..], handle[..], h, mode);
      d := d.(adbus := Spi.IdleLevels(mode == 2));
      ghost var devs := dev[..][H.dev := d];
      dev[H.dev] := d;
      assert dev[..] == devs;
      ok := Program(u, mode == 2, div);
      SetupClock(old(u.ran), mode == 2, div);
      if ok {
        KeptSetup(devs, handle[..], h, mode, actual);
        ghost var hs := handle[..][h := H.(mode := mode, hz := actual)];
        NoFasterSet(handle[..], asked, h, H.(mode := mode, hz := actual), hz);
        d := d.(spiHz := actual, spiMode := mode);
        dev[H.dev] := d;
        handle[h] := H.(mode := mode, hz := actual);
        asked := asked[h := hz];
        assert dev[..] == devs[H.dev := d] && handle[..] == hs;
      }
    }

    /** The device a token leads to. */
    ghost predicate Behind(h: int, u: Usb)
      reads this, dev, handle
    {
      dev.Length == MAX_DEV && handle.Length == MAX_HANDLE
      && (0 <= h < MAX_HANDLE && handle[h].used && handle[h].dev < MAX_DEV ==> dev[handle[h].dev].usb == u)
    }

    /** The divisor a message on h begins with: none while the handle's own clock is the one recorded. */
    ghost function Reprogram(h: int): Option<(byte, byte)>
      requires dev.Length == MAX_DEV && 0 <= h < handle.Length && handle[h].dev < MAX_DEV && handle[h].hz > 0
      reads this, dev, handle
    {
      if dev[handle[h].dev].spiHz == handle[h].hz then None
      else Some((LowByte(DivSpi(handle[h].hz)), HighByte(DivSpi(handle[h].hz))))
    }

    /** ft232h_spi_msg on a token: the clock programmed again only when another handle's is in force.  Unless a USB
        call fails, the message is heard and answered, and runs at a clock no faster than the handle asked for,
        provided the device's record of the clock was right. */
    method SpiMsg(h: int, legs: seq<Spi.Leg>, u: Usb, ghost wires: Spi.Bus) returns (rc: Ft232hSpi.SpiResult)
      requires Valid() && Behind(h, u)
      requires forall k :: 0 <= k < |legs| && legs[k].tx.Some? ==> |legs[k].tx.value| == legs[k].len
      requires Ready(h, legs) ==> Spi.Quiet(handle[h].mode == 2, Spi.Run(handle[h].mode == 2, wires, u.ran))
      modifies dev, u
      ensures Valid() && forall i :: 0 <= i < MAX_DEV ==> dev[i].refs == old(dev[i].refs)
      ensures rc.Invalid? <==> !Ready(h, legs)
      ensures rc.Invalid? ==> unchanged(u) && dev[..] == old(dev[..])
      ensures !rc.Invalid? ==> dev[..] == old(dev[..])[handle[h].dev := old(dev[handle[h].dev]).(spiHz := handle[h].hz)]
      ensures old(u.Healthy()) ==> Unfailed(u) && u.Healthy()
      ensures !rc.Invalid? && Unfailed(u) ==>
        && rc.Sent? && u.queue == [] && u.garbled == old(u.garbled) && Spi.ValidLegs(legs) && 0 <= handle[h].cs <= 4
        && u.ran == old(u.ran) + Ft232hSpi.Emission(old(Reprogram(h)), handle[h].mode == 2, handle[h].cs,
                                                    Ft232hSpi.EdgeFor(handle[h].mode == 2), legs)
      ensures !rc.Invalid? && Unfailed(u) ==>
        && Spi.ValidLegs(legs) && 0 <= handle[h].cs <= 4
        && Spi.Quiet(handle[h].mode == 2, Spi.Run(handle[h].mode == 2, wires, u.ran))
        && Spi.Run(handle[h].mode == 2, wires, u.ran).events
             == old(Spi.Run(handle[h].mode == 2, wires, u.ran)).events + Spi.MessageEvents(handle[h].cs, legs)
      ensures !rc.Invalid? && Unfailed(u) ==> rc.Sent? && Ft232hSpi.Scattered(u.line, old(u.samples), legs, rc.rx)
      ensures !rc.Invalid? && Unfailed(u) ==>
        Spi.ValidLegs(legs) && 0 <= handle[h].cs <= 4
        && u.samples == old(u.samples) + SamplesAll(Ft232hSpi.Emission(old(Reprogram(h)), handle[h].mode == 2, handle[h].cs,
                                                                       Ft232hSpi.EdgeFor(handle[h].mode == 2), legs))
      ensures rc.Sent? ==> u.ran != old(u.ran)
      ensures !rc.Invalid? ==>
        ClockOf(u.ran) == if old(Reprogram(h)).Some? && u.ran != old(u.ran) then Some(DivSpi(handle[h].hz)) else ClockOf(old(u.ran))
      ensures !rc.Invalid? ==>
        (Clocked(dev[handle[h].dev], u.ran) <==>
           (old(Reprogram(h)).Some? && u.ran != old(u.ran)) || Within(old(u.ran), handle[h].hz))
      ensures rc.Sent? && old(Clocked(dev[handle[h].dev], u.ran)) ==>
        Clocked(dev[handle[h].dev], u.ran) && Within(u.ran, handle[h].hz) && handle[h].hz <= asked[h]
      ensures !rc.Invalid? && |legs| == 1 && legs[0].len <= Spi.CHUNK && OutcomeAt(old(u.outcomes), 0) < 0 ==>
        rc == Ft232hSpi.SpiFailed && Idled(u, false, false)
    {
      hide Kept, NoFaster, Suits, Holders, LiveDev, DivSpi, HzForDiv, LowByte, HighByte, Spi.Quiet, Spi.Run, Spi.MessageEvents,
           Ft232hSpi.Acceptable, Ft232hSpi.RxFor, Spi.ValidLegs, Ft232hSpi.Emission, Ft232hSpi.Scattered, Ft232hSpi.Ran, ClockOf, Serves,
           OutcomeAt, Later;
      if h < 0 || h >= MAX_HANDLE { return Ft232hSpi.Invalid; }
      var H := handle[h];
      if !H.used || H.hz == 0 { return Ft232hSpi.Invalid; }
      HeldUsable(dev[..], handle[..], h);
      var okLegs, nrx := Ft232hSpi.CheckLegs(legs);
      if !okLegs { return Ft232hSpi.Invalid; }
      AskedFor(handle[..], asked, h);
      var d := dev[H.dev];
      var div: Option<(byte, byte)> := None;
      if d.spiHz != H.hz {
        var k := DivSpi(H.hz);
        div := Some((LowByte(k), HighByte(k)));
        KeptClock(dev[..], handle[..], h);
        dev[H.dev] := d.(spiHz := H.hz);
      }
      assert dev[..] == old(dev[..])[H.dev := d.(spiHz := H.hz)];
      rc := Ft232hSpi.SpiMessage(u, div, H.mode == 2, H.cs, legs, wires);
      assert handle[..] == old(handle[..]);
      MessageClock(old(u.ran), u.ran, div, H.hz);
    }

    /** ft232h_i2c_xfer on a token; None when it names no open I2C handle. */
    method I2cXfer(h: int, addr: byte, tx: seq<byte>, rxlen: nat, u: Usb, ghost wires: I2c.Bus)
      returns (rc: Option<I2cResult>, rx: seq<byte>)
      requires Valid() && Behind(h, u) && I2c.Free(I2c.Run(wires, u.ran))
      modifies u
      ensures Valid() && (rc.None? ==> unchanged(u))
      ensures rc.Some? <==> 0 <= h < MAX_HANDLE && handle[h].used && handle[h].cs < 0
      ensures old(u.Healthy()) ==> Unfailed(u) && u.Healthy()
      ensures rc.Some? && Unfailed(u) ==>
        && u.queue == [] && u.garbled == old(u.garbled)
        && u.ran == old(u.ran) + I2c.TransactionCmds(WriteAddr(addr), ReadAddr(addr), tx, rxlen)
        && I2c.Free(I2c.Run(wires, u.ran))
        && I2c.Run(wires, u.ran).events == old(I2c.Run(wires, u.ran)).events
                                           + I2c.TransactionEvents(WriteAddr(addr), ReadAddr(addr), tx, rxlen)
        && Answers(u.line, old(u.samples), |tx|, rxlen, rc.value, rx)
      ensures rc.Some? && !rc.value.UsbFailed? ==>
        Answered(old(u.ran), u.ran, addr, tx, rxlen, old(u.queue) == [], Unfailed(u))
      ensures rc.Some? && !rc.value.UsbFailed? && Short(|tx|, rxlen) && old(u.queue) == [] ==> Unfailed(u)
    {
      hide Kept, NoFaster, Suits, Holders, LiveDev, Answered, CutCmds, Short, OutcomeAt, Later, I2c.Free, I2c.Run, I2c.TransactionCmds, I2c.TransactionEvents,
           WriteAddr, ReadAddr, Answers, Serves;
      rc, rx := None, [];
      if h < 0 || h >= MAX_HANDLE || !handle[h].used { return; }
      HeldUsable(dev[..], handle[..], h);
      HeldProto(dev[..], handle[..], h);
      if dev[handle[h].dev].proto != I2cProto { return; }
      var r;
      r, rx := I2cTransfer(u, addr, tx, rxlen, wires);
      rc := Some(r);
    }

    /** The record can be wrong after a failed call: with the chip at 30 MHz, the write that would bring a slower handle's
        clock fails, and the handle's next message, on a device that works again, runs at 30 MHz. */
    method MissedClock(h: int, leg: Spi.Leg, u: Usb, ghost wires: Spi.Bus)
      requires Valid() && Behind(h, u) && Ready(h, [leg]) && leg.len <= Spi.CHUNK
      requires leg.tx.Some? ==> |leg.tx.value| == leg.len
      requires Spi.Quiet(handle[h].mode == 2, Spi.Run(handle[h].mode == 2, wires, u.ran))
      requires u.queue == [] && u.packetSize >= PACKET_ROOM + 2 && u.outcomes == [-1]
      requires handle[h].hz == 1000000 && dev[handle[h].dev].spiHz == 30000000 && ClockOf(u.ran) == Some(0)
      modifies dev, u
      ensures Valid() && 0 <= handle[h].cs <= 4 && Spi.ValidLegs([leg])
      ensures u.ran == old(u.ran) + Ft232hSpi.Emission(None, handle[h].mode == 2, handle[h].cs,
                                                       Ft232hSpi.EdgeFor(handle[h].mode == 2), [leg])
      ensures ClockOf(u.ran) == Some(0) && HzForDiv(0) == 30000000 && dev[handle[h].dev].spiHz == 1000000
    {
      hide Kept, NoFaster, Suits, Holders, LiveDev, DivSpi, HzForDiv, LowByte, HighByte, Spi.Quiet, Spi.Run, Spi.MessageEvents,
           Ft232hSpi.Acceptable, Spi.ValidLegs, Ft232hSpi.Emission, Ft232hSpi.Scattered, ClockOf, Serves, Clocked, Within, SamplesAll;
      assert HzForDiv(0) == 30000000 by { TopClock(); }
      assert handle[h].dev < MAX_DEV by { HeldUsable(dev[..], handle[..], h); }
      var rc := SpiMsg(h, [leg], u, wires);
      assert u.ran == old(u.ran) && u.outcomes == [];
      NothingServes();
      rc := SpiMsg(h, [leg], u, wires);
    }

    /** Any messages, for any handles of one dongle: a healthy device runs them one after another and nothing else,
        each at a clock no faster than its own handle asked for, whatever clocks the others use, and every reading leg
        gets its own bytes. */
    method SpiTraffic(reqs: seq<Request>, i: nat, u: Usb, idle: bool, ghost wires: Spi.Bus) returns (rcs: seq<Ft232hSpi.SpiResult>)
      requires Valid() && i < MAX_DEV && dev[i].usb == u && u.Healthy() && Clocked(dev[i], u.ran)
      requires forall k :: 0 <= k < |reqs| ==> Servable(handle[..], reqs[k], i, idle)
      requires Spi.Quiet(idle, Spi.Run(idle, wires, u.ran))
      modifies dev, u
      ensures Valid() && u.Healthy() && dev[i].usb == u && Clocked(dev[i], u.ran)
      ensures handle[..] == old(handle[..])
      ensures u.ran == old(u.ran) + Traffic(handle[..], old(dev[i].spiHz), reqs, idle)
      ensures |rcs| == |reqs| && forall k :: 0 <= k < |reqs| ==>
        InTurn(handle[..], asked, old(dev[i].spiHz), reqs, k, idle, old(u.ran), u.line, old(u.samples), rcs[k])
      ensures Spi.Quiet(idle, Spi.Run(idle, wires, u.ran))
      ensures Spi.Run(idle, wires, u.ran).events
           == old(Spi.Run(idle, wires, u.ran)).events + Heard(handle[..], reqs)
    {
      hide Kept, NoFaster, Clocked, Spi.Quiet, Spi.Run, Serves, Ft232hSpi.Scattered, Usb.Healthy, Traffic, Recorded, Within, SamplesAll,
           Served, Portion, Echo, Heard, Along, Servable, AsAsked, InTurn;
      ghost var hs, hz0, ran0, s0, ev0 := handle[..], dev[i].spiHz, u.ran, u.samples, Spi.Run(idle, wires, u.ran).events;
      rcs := [];
      var k := 0;
      AlongNone(hs, hz0, reqs, idle, ran0, s0, ev0);
      while k < |reqs|
        invariant 0 <= k <= |reqs| && |rcs| == k
        invariant Valid() && u.Healthy() && dev[i].usb == u && Clocked(dev[i], u.ran) && handle[..] == hs && asked == old(asked)
        invariant Spi.Quiet(idle, Spi.Run(idle, wires, u.ran))
        invariant Along(hs, hz0, reqs[..k], idle, ran0, u.ran, s0, u.samples, ev0, Spi.Run(idle, wires, u.ran).events, dev[i].spiHz)
        invariant forall j :: 0 <= j < k ==> InTurn(hs, asked, hz0, reqs, j, idle, ran0, u.line, s0, rcs[j])
      {
        assert Servable(hs, reqs[k], i, idle);
        ghost var ran, samples, ev, hz := u.ran, u.samples, Spi.Run(idle, wires, u.ran).events, dev[i].spiHz;
        var rc := Serve(reqs[k], i, u, idle, wires);
        AlongNext(hs, hz0, reqs, k, idle, ran0, ran, u.ran, s0, samples, u.samples, ev0, ev, Spi.Run(idle, wires, u.ran).events,
                  hz, dev[i].spiHz, asked, u.line, rc);
        rcs := rcs + [rc];
        k := k + 1;
      }
      assert reqs[..|reqs|] == reqs;
      AlongMeans(hs, hz0, reqs, idle, ran0, u.ran, s0, u.samples, ev0, Spi.Run(idle, wires, u.ran).events, dev[i].spiHz);
    }

    /** One of them. */
    method Serve(r: Request, i: nat, u: Usb, idle: bool, ghost wires: Spi.Bus) returns (rc: Ft232hSpi.SpiResult)
      requires Valid() && i < MAX_DEV && dev[i].usb == u && u.Healthy() && Clocked(dev[i], u.ran)
      requires Servable(handle[..], r, i, idle) && Spi.Quiet(idle, Spi.Run(idle, wires, u.ran))
      modifies dev, u
      ensures Valid() && u.Healthy() && dev[i].usb == u && Clocked(dev[i], u.ran)
      ensures handle[..] == old(handle[..]) && asked == old(asked) && r.h < |handle[..]| && dev[i].spiHz == handle[..][r.h].hz
      ensures u.ran == old(u.ran) + Portion(handle[..], old(dev[i].spiHz), r, idle)
      ensures u.samples == old(u.samples) + SamplesAll(Portion(handle[..], old(dev[i].spiHz), r, idle))
      ensures AsAsked(handle[..], asked, r.h, u.ran)
      ensures rc.Sent? && Ft232hSpi.Scattered(u.line, old(u.samples), r.legs, rc.rx)
      ensures Spi.Quiet(idle, Spi.Run(idle, wires, u.ran))
      ensures Spi.Run(idle, wires, u.ran).events == old(Spi.Run(idle, wires, u.ran)).events + Echo(handle[..], r)
    {
      hide Kept, NoFaster, ClockOf, HzForDiv, DivSpi, Clocked, Spi.Quiet, Spi.Run, Serves, Ft232hSpi.Emission, Ft232hSpi.Scattered,
           Usb.Healthy, Spi.MessageEvents, Ft232hSpi.Acceptable, Within, SamplesAll, OutcomeAt, Later;
      AskedLength(handle[..], asked);
      rc := SpiMsg(r.h, r.legs, u, wires);
    }

    ghost predicate Ready(h: int, legs: seq<Spi.Leg>)
      reads this, handle
    {
      0 <= h < handle.Length && handle[h].used && handle[h].hz != 0 && Ft232hSpi.Acceptable(legs)
    }

    ghost predicate Configurable(h: int, mode: nat, hz: nat)
      reads this, dev, handle
    {
      && dev.Length == MAX_DEV && 0 <= h < handle.Length && handle[h].used && handle[h].dev < MAX_DEV
      && handle[h].cs >= 0 && dev[handle[h].dev].proto == SpiProto
      && (mode == 0 || mode == 2) && MIN_SPI_HZ <= hz <= MAX_SPI_HZ
      && (dev[handle[h].dev].spiHz != 0 ==> dev[handle[h].dev].spiMode == mode)
    }
  }

  lemma TopClock()
    ensures HzForDiv(0) == 30000000
  {}

  /** A message for one handle. */
  datatype Request = Request(h: nat, legs: seq<Spi.Leg>)

  /** The chip's clock is no faster than the handle's, which is no faster than it asked for. */
  predicate AsAsked(hs: seq<Handle>, asked: seq<nat>, h: nat, ran: seq<Cmd>) {
    h < |hs| && h < |asked| && Within(ran, hs[h].hz) && hs[h].hz <= asked[h]
  }

  /** A request a configured handle of device i can serve. */
  predicate Servable(hs: seq<Handle>, r: Request, i: nat, idle: bool) {
    && r.h < |hs| && hs[r.h].used && hs[r.h].hz != 0 && Ft232hSpi.Acceptable(r.legs)
    && hs[r.h].dev == i && (idle <==> hs[r.h].mode == 2)
    && (forall k :: 0 <= k < |r.legs| && r.legs[k].tx.Some? ==> |r.legs[k].tx.value| == r.legs[k].len)
  }

  /** Request k runs at a clock its handle asked for, and its reading legs get what the wire then says. */
  predicate InTurn(hs: seq<Handle>, asked: seq<nat>, hz0: nat, reqs: seq<Request>, k: nat, idle: bool, ran0: seq<Cmd>,
                   line: nat -> bool, s0: nat, rc: Ft232hSpi.SpiResult) {
    && k < |reqs|
    && AsAsked(hs, asked, reqs[k].h, ran0 + Traffic(hs, hz0, reqs[..k + 1], idle))
    && Served(line, s0, Traffic(hs, hz0, reqs[..k], idle), reqs[k], rc)
  }

  /** What the chip runs for a request on a device recorded at hz. */
  function Portion(hs: seq<Handle>, hz: nat, r: Request, idle: bool): seq<Cmd> {
    if r.h < |hs| && 0 <= hs[r.h].cs <= 4 && hs[r.h].hz > 0 && Spi.ValidLegs(r.legs) then
      var div := if hz == hs[r.h].hz then None else Some((LowByte(DivSpi(hs[r.h].hz)), HighByte(DivSpi(hs[r.h].hz))));
      Ft232hSpi.Emission(div, idle, hs[r.h].cs, Ft232hSpi.EdgeFor(idle), r.legs)
    else []
  }

  /** The clock a device recorded at hz is recorded at once it has served the requests. */
  function Recorded(hs: seq<Handle>, hz: nat, reqs: seq<Request>): nat {
    if reqs != [] && reqs[|reqs| - 1].h < |hs| then hs[reqs[|reqs| - 1].h].hz else hz
  }

  /** What the chip runs for requests served in turn on a device recorded at hz. */
  function Traffic(hs: seq<Handle>, hz: nat, reqs: seq<Request>, idle: bool): seq<Cmd> {
    if reqs == [] then []
    else
      var front := reqs[..|reqs| - 1];
      Traffic(hs, hz, front, idle) + Portion(hs, Recorded(hs, hz, front), reqs[|reqs| - 1], idle)
  }

  /** The message went out, and its reading legs got what the wire said once the chip had run the commands before. */
  predicate Served(line: nat -> bool, base: nat, before: seq<Cmd>, r: Request, rc: Ft232hSpi.SpiResult) {
    rc.Sent? && Ft232hSpi.Scattered(line, base + SamplesAll(before), r.legs, rc.rx)
  }

  /** What the bus hears of requests served in turn. */
  function Heard(hs: seq<Handle>, reqs: seq<Request>): seq<Spi.Event> {
    if reqs == [] then [] else Heard(hs, reqs[..|reqs| - 1]) + Echo(hs, reqs[|reqs| - 1])
  }

  /** And of one of them. */
  function Echo(hs: seq<Handle>, r: Request): seq<Spi.Event> {
    if r.h < |hs| && 0 <= hs[r.h].cs <= 4 && Spi.ValidLegs(r.legs) then Spi.MessageEvents(hs[r.h].cs, r.legs) else []
  }

  /** Where a device is once requests have been served: what it has run, sampled and let the bus hear since ran0, s0
      and ev0, and the clock it is recorded at. */
  ghost predicate Along(hs: seq<Handle>, hz0: nat, reqs: seq<Request>, idle: bool, ran0: seq<Cmd>, ran: seq<Cmd>, s0: nat, s: nat,
                        ev0: seq<Spi.Event>, ev: seq<Spi.Event>, hz: nat) {
    && ran == ran0 + Traffic(hs, hz0, reqs, idle)
    && s == s0 + SamplesAll(Traffic(hs, hz0, reqs, idle))
    && ev == ev0 + Heard(hs, reqs)
    && hz == Recorded(hs, hz0, reqs)
  }

  lemma AlongMeans(hs: seq<Handle>, hz0: nat, reqs: seq<Request>, idle: bool, ran0: seq<Cmd>, ran: seq<Cmd>, s0: nat, s: nat,
                   ev0: seq<Spi.Event>, ev: seq<Spi.Event>, hz: nat)
    requires Along(hs, hz0, reqs, idle, ran0, ran, s0, s, ev0, ev, hz)
    ensures ran == ran0 + Traffic(hs, hz0, reqs, idle) && ev == ev0 + Heard(hs, reqs)
  {}

  lemma AlongNone(hs: seq<Handle>, hz: nat, reqs: seq<Request>, idle: bool, ran: seq<Cmd>, s: nat, ev: seq<Spi.Event>)
    ensures Along(hs, hz, reqs[..0], idle, ran, ran, s, s, ev, ev, hz)
  {}

  lemma AlongNext(hs: seq<Handle>, hz0: nat, reqs: seq<Request>, k: nat, idle: bool, ran0: seq<Cmd>, ran: seq<Cmd>, ran1: seq<Cmd>,
                  s0: nat, s: nat, s1: nat, ev0: seq<Spi.Event>, ev: seq<Spi.Event>, ev1: seq<Spi.Event>, hz: nat, hz1: nat,
                  asked: seq<nat>, line: nat -> bool, rc: Ft232hSpi.SpiResult)
    requires k < |reqs| && reqs[k].h < |hs| && Along(hs, hz0, reqs[..k], idle, ran0, ran, s0, s, ev0, ev, hz)
    requires ran1 == ran + Portion(hs, hz, reqs[k], idle) && s1 == s + SamplesAll(Portion(hs, hz, reqs[k], idle))
    requires ev1 == ev + Echo(hs, reqs[k]) && hz1 == hs[reqs[k].h].hz
    requires rc.Sent? && Ft232hSpi.Scattered(line, s, reqs[k].legs, rc.rx) && AsAsked(hs, asked, reqs[k].h, ran1)
    ensures Along(hs, hz0, reqs[..k + 1], idle, ran0, ran1, s0, s1, ev0, ev1, hz1)
    ensures InTurn(hs, asked, hz0, reqs, k, idle, ran0, line, s0, rc)
  {
    hide Portion, Echo, SamplesAll, Ft232hSpi.Scattered, AsAsked;
    assert reqs[..k + 1][..k] == reqs[..k];
    SamplesAppend(Traffic(hs, hz0, reqs[..k], idle), Portion(hs, hz, reqs[k], idle));
  }

  /** What spi_setup sends. */
  function SetupCmds(idle: bool, div: nat): seq<Cmd> {
    [ClkDiv(LowByte(div), HighByte(div)), SetLow(Spi.IdleLevels(idle), Spi.SPI_DIR)]
  }

  lemma SmallCmd(c: Cmd)
    requires ValidCmd(c) && !c.Out? && !c.Io?
    ensures |Encode(c)| <= 3
  {}

  /** The USB half of spi_setup: the divisor and the pins at the mode's rest levels. */
  method Program(u: Usb, idle: bool, div: nat) returns (ok: bool)
    modifies u
    ensures old(u.Healthy()) ==> Unfailed(u) && u.Healthy()
    ensures Unfailed(u) ==> ok && u.queue == [] && u.garbled == old(u.garbled)
    ensures Unfailed(u) ==> u.ran == old(u.ran) + SetupCmds(idle, div)
  {
    hide Spi.IdleLevels, LowByte, HighByte, EncodeAll, ReplyAll, SamplesAll, OwedAll, Encode, Serves, Account;
    var none := new byte[0];
    var m := new Stream(u, none);
    var c, x := ClkDiv(LowByte(div), HighByte(div)), SetLow(Spi.IdleLevels(idle), Spi.SPI_DIR);
    SmallCmd(c);
    SmallCmd(x);
    m.Emit(c);
    m.Emit(x);
    assert m.log == SetupCmds(idle, div);
    SetupSilent(idle, div);
    ok := m.Flush();
    if !m.lost {
      AccountDone(u.line, m.base, m.log, m.sent, u.samples, none[..m.replied]);
      LaidDone(m.held, m.cmd[..m.n], m.log, m.sent, m.ran0, u.ran);
    }
  }

  /** Setting up programs exactly the divisor chosen. */
  lemma SetupClock(before: seq<Cmd>, idle: bool, div: nat)
    requires div <= 65535
    ensures ClockOf(before + SetupCmds(idle, div)) == Some(div)
  {
    hide LowByte, HighByte, Spi.IdleLevels, DivisorOf, ClockOf;
    var c, x := ClkDiv(LowByte(div), HighByte(div)), SetLow(Spi.IdleLevels(idle), Spi.SPI_DIR);
    assert SetupCmds(idle, div) == [c] + [x];
    OneClock(c);
    OneClock(x);
    ClockAppend([c], [x]);
    ClockAppend(before, [c] + [x]);
    DivisorBytes(div);
  }

  /** A message runs at its own divisor when it brings one, and that comes out no faster than its rate. */
  lemma MessageClock(before: seq<Cmd>, after: seq<Cmd>, div: Option<(byte, byte)>, hz: nat)
    requires MIN_SPI_HZ <= hz <= MAX_SPI_HZ && Ft232hSpi.Ran(before, after, div)
    requires div.Some? ==> div.value == (LowByte(DivSpi(hz)), HighByte(DivSpi(hz)))
    ensures HzForDiv(DivSpi(hz)) <= hz
    ensures ClockOf(after) == if div.Some? && after != before then Some(DivSpi(hz)) else ClockOf(before)
  {
    hide LowByte, HighByte, DivisorOf, ClockOf, DivSpi, HzForDiv, Ft232hSpi.Ran;
    DivSpiExact(hz);
    RanClock(before, after, div);
    if div.Some? { DivisorBytes(DivSpi(hz)); }
  }

  lemma AskedLength(hs: seq<Handle>, asked: seq<nat>)
    requires NoFaster(hs, asked)
    ensures |asked| == |hs|
  {}

  lemma AskedFor(hs: seq<Handle>, asked: seq<nat>, k: nat)
    requires NoFaster(hs, asked) && k < |hs| && hs[k].used
    ensures |asked| == |hs| && hs[k].hz <= asked[k]
  {}

  lemma NoFasterSet(hs: seq<Handle>, asked: seq<nat>, k: nat, h: Handle, hz: nat)
    requires NoFaster(hs, asked) && k < |hs| && h.hz <= hz
    ensures NoFaster(hs[k := h], asked[k := hz])
  {}

  lemma NoFasterFresh(hs: seq<Handle>, asked: seq<nat>, k: nat, h: Handle)
    requires NoFaster(hs, asked) && k < |hs| && (h.used ==> h.hz == 0)
    ensures NoFaster(hs[k := h], asked)
  {}

  lemma SetupSilent(idle: bool, div: nat)
    ensures OwedAll(SetupCmds(idle, div)) == 0
  {
    hide Spi.IdleLevels, LowByte, HighByte;
    var c, x := ClkDiv(LowByte(div), HighByte(div)), SetLow(Spi.IdleLevels(idle), Spi.SPI_DIR);
    OwedSnoc([], c);
    OwedSnoc([c], x);
    assert [] + [c] == [c] && [c] + [x] == [c, x];
  }

  lemma HeldUsable(devs: seq<Dev>, hs: seq<Handle>, k: nat)
    requires Kept(devs, hs) && k < MAX_HANDLE && hs[k].used
    ensures hs[k].dev < MAX_DEV && devs[hs[k].dev].usb != null && hs[k].cs <= 4
    ensures hs[k].hz != 0 ==> MIN_SPI_HZ <= hs[k].hz <= MAX_SPI_HZ && hs[k].cs >= 0 && devs[hs[k].dev].proto == SpiProto
  {
    HeldIsLive(devs, hs, k);
  }

  lemma HeldProto(devs: seq<Dev>, hs: seq<Handle>, k: nat)
    requires Kept(devs, hs) && k < MAX_HANDLE && hs[k].used
    ensures hs[k].dev < MAX_DEV && (hs[k].cs < 0 <==> devs[hs[k].dev].proto == I2cProto)
  {
    HeldIsLive(devs, hs, k);
  }

  /** Idle levels set ahead of a mode the device already has, or has none of. */
  lemma KeptLevels(devs: seq<Dev>, hs: seq<Handle>, slot: nat, mode: nat)
    requires Kept(devs, hs) && slot < MAX_HANDLE && hs[slot].used
    requires var d := devs[hs[slot].dev]; d.spiHz == 0 || d.spiMode == mode
    ensures Kept(devs[hs[slot].dev := devs[hs[slot].dev].(adbus := Spi.IdleLevels(mode == 2))], hs)
  {
    hide Spi.IdleLevels;
    var i := hs[slot].dev;
    var ds := devs[i := devs[i].(adbus := Spi.IdleLevels(mode == 2))];
    HeldIsLive(devs, hs, slot);
    forall k | 0 <= k < MAX_HANDLE && hs[k].used ensures Suits(ds[hs[k].dev], hs[k]) { HeldIsLive(devs, hs, k); }
  }

  /** The clock in force becomes a handle's own. */
  lemma KeptClock(devs: seq<Dev>, hs: seq<Handle>, slot: nat)
    requires Kept(devs, hs) && slot < MAX_HANDLE && hs[slot].used && hs[slot].hz != 0
    ensures Kept(devs[hs[slot].dev := devs[hs[slot].dev].(spiHz := hs[slot].hz)], hs)
  {
    hide Spi.IdleLevels;
    var i := hs[slot].dev;
    var ds := devs[i := devs[i].(spiHz := hs[slot].hz)];
    HeldIsLive(devs, hs, slot);
    forall k | 0 <= k < MAX_HANDLE && hs[k].used ensures Suits(ds[hs[k].dev], hs[k]) { HeldIsLive(devs, hs, k); }
  }

  lemma {:induction false} NoHolders(hs: seq<Handle>, i: nat)
    requires forall k :: 0 <= k < |hs| ==> !hs[k].used
    ensures Holders(hs, i) == 0
    decreases |hs|
  {
    if hs != [] { NoHolders(hs[..|hs| - 1], i); }
  }

  lemma RefsNonneg(devs: seq<Dev>, hs: seq<Handle>, i: nat)
    requires Kept(devs, hs) && i < MAX_DEV
    ensures devs[i].refs >= 0
  {
    HoldersNonneg(hs, i);
  }

  lemma JoinKept(devs: seq<Dev>, hs: seq<Handle>, slot: nat, i: nat, cs: int)
    requires Kept(devs, hs) && slot < MAX_HANDLE && !hs[slot].used && i < MAX_DEV && devs[i].refs > 0
    requires -1 <= cs <= 4 && (cs >= 0 <==> devs[i].proto == SpiProto)
    ensures Kept(devs[i := devs[i].(refs := devs[i].refs + 1)], hs[slot := Handle(true, i, cs, 0, 0)])
  {
    KeptOpen(devs, hs, slot, i, devs[i].(refs := devs[i].refs + 1), cs);
  }

  lemma FreshKept(devs: seq<Dev>, hs: seq<Handle>, slot: nat, i: nat, d: Dev, cs: int)
    requires Kept(devs, hs) && slot < MAX_HANDLE && !hs[slot].used && i < MAX_DEV && devs[i].refs == 0
    requires d.refs == 1 && d.usb != null && d.spiHz == 0 && d.proto == (if cs >= 0 then SpiProto else I2cProto) && -1 <= cs <= 4
    requires forall j :: 0 <= j < MAX_DEV && devs[j].refs > 0 ==> devs[j].key != d.key
    ensures Kept(devs[i := d], hs[slot := Handle(true, i, cs, 0, 0)])
  {
    KeptOpen(devs, hs, slot, i, d, cs);
  }

  lemma UnusedCleared(devs: seq<Dev>, hs: seq<Handle>, slot: nat)
    requires Kept(devs, hs) && slot < MAX_HANDLE && !hs[slot].used
    ensures Kept(devs, hs[slot := NO_HANDLE])
  {
    forall j | 0 <= j < MAX_DEV ensures devs[j].refs == Holders(hs[slot := NO_HANDLE], j) {
      HoldersUpdate(hs, slot, NO_HANDLE, j);
    }
    forall k | 0 <= k < MAX_HANDLE && hs[slot := NO_HANDLE][k].used
      ensures hs[k].dev < MAX_DEV && Suits(devs[hs[k].dev], hs[slot := NO_HANDLE][k])
    {
      HeldIsLive(devs, hs, k);
    }
  }
}
