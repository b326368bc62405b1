/**
 What a capture file promises over its whole length: written records read back as themselves,
 a cut loses only what it cuts, newer writers' additions change nothing an older reader
 delivers, and a short error is never delivered.
 */
module CaptureRuns {
  import opened Crc32
  import opened Wire
  import opened CaptureFormat

  /** A record as a writer, this one or a newer one, seals it: any type, any payload. */
  datatype Item = Item(kind: byte, flags: byte, payload: seq<byte>, monoNs: bv64)

  /** The payload holds at least what this reader knows of the type, and its length fits the frame. */
  predicate ValidItem(it: Item) {
    KnownSize(it.kind) <= |it.payload| <= 65531
  }

  function FrameOf(it: Item): Frame
    requires |it.payload| <= 65531
  {
    Frame(it.kind, it.flags | F_CRC32, LenField(|it.payload| + 4), it.monoNs)
  }

  function Body(it: Item): (b: seq<byte>)
    requires |it.payload| <= 65531
    ensures |b| == FRAME_SIZE + |it.payload|
  {
    FrameEncode(FrameOf(it)) + it.payload
  }

  /** cap_write_rec: frame, payload, CRC of both. */
  function ItemBytes(it: Item): (b: seq<byte>)
    requires |it.payload| <= 65531
    ensures |b| == FRAME_SIZE + |it.payload| + 4
  {
    Body(it) + Put32(Crc(Body(it)))
  }

  predicate ValidItems(items: seq<Item>) {
    forall k :: 0 <= k < |items| ==> ValidItem(items[k])
  }

  function AllBytes(items: seq<Item>): seq<byte>
    requires ValidItems(items)
  {
    if items == [] then [] else ItemBytes(items[0]) + AllBytes(items[1..])
  }

  /** What this reader should deliver for one item. */
  function Meaning(it: Item): seq<Record>
    requires ValidItem(it)
  {
    if Known(it.kind) then [Parse(FrameOf(it), it.payload[..KnownSize(it.kind)])] else []
  }

  function Meanings(items: seq<Item>): seq<Record>
    requires ValidItems(items)
  {
    if items == [] then [] else Meaning(items[0]) + Meanings(items[1..])
  }

  // ---------- one sealed item ----------

  lemma SealBits(flags: byte)
    ensures (flags | F_CRC32) & F_CRC32 != 0
    ensures ValidBit(flags | F_CRC32) == ValidBit(flags)
  {}

  lemma FrameOfSealed(it: Item)
    requires |it.payload| <= 65531
    ensures Sealed(FrameOf(it)) && LenOf(FrameOf(it)) == |it.payload| + 4
  {
    hide LenField, LenOf;
    SealBits(it.flags);
    LenFieldLaw(FrameOf(it), |it.payload| + 4);
  }

  lemma FrameAhead(it: Item, more: seq<byte>)
    requires |it.payload| <= 65531
    ensures FrameDecode(ItemBytes(it) + more) == FrameOf(it)
    ensures Sealed(FrameOf(it)) && LenOf(FrameOf(it)) == |it.payload| + 4
  {
    hide FrameDecode, FrameEncode, Put32, Crc, FrameOf, Sealed, LenOf;
    FrameOfSealed(it);
    var head, seal := FrameEncode(FrameOf(it)), Put32(Crc(Body(it)));
    SeqAssoc(head, it.payload, seal);
    SeqAssoc(head, it.payload + seal, more);
    FrameRoundTrip(FrameOf(it), it.payload + seal + more);
  }

  lemma ItemIsCodeword(it: Item)
    requires |it.payload| <= 65531
    ensures Codeword(ItemBytes(it))
  {
    hide Codeword, Put32, Crc;
    SealedIsCodeword(Body(it));
  }

  /** A sealed item in front of anything is taken as what it is. */
  lemma ItemStep(promised: bool, it: Item, more: seq<byte>)
    requires ValidItem(it)
    ensures StepOf(promised, ItemBytes(it) + more)
         == if Known(it.kind) then Deliver(Meaning(it)[0], more) else Skip(more)
  {
    hide FrameDecode, Codeword, Parse, Sealed, ItemBytes, FrameOf, Known, KnownSize, LenOf;
    var s := ItemBytes(it) + more;
    var n := FRAME_SIZE + |it.payload| + 4;
    FrameAhead(it, more);
    assert s[..n] == ItemBytes(it) && s[n..] == more;
    ItemIsCodeword(it);
    PayloadAhead(it, more);
    KindOfFrame(it);
  }

  lemma KindOfFrame(it: Item)
    requires |it.payload| <= 65531
    ensures FrameOf(it).kind == it.kind
  {}

  lemma PayloadAhead(it: Item, more: seq<byte>)
    requires ValidItem(it)
    ensures (ItemBytes(it) + more)[FRAME_SIZE..][..KnownSize(it.kind)] == it.payload[..KnownSize(it.kind)]
  {
    hide FrameEncode, FrameOf, Put32, Crc;
  }

  /** A cut item ends the file. */
  lemma CutStep(promised: bool, it: Item, n: nat)
    requires ValidItem(it) && n < |ItemBytes(it)|
    ensures StepOf(promised, ItemBytes(it)[..n]) == Ended
  {
    hide Codeword, Parse, Sealed, ItemBytes, FrameOf, Known, KnownSize, LenOf;
    if FRAME_SIZE <= n {
      FrameAhead(it, []);
      assert ItemBytes(it) + [] == ItemBytes(it);
      FramePrefix(ItemBytes(it), n);
      KindOfFrame(it);
    }
  }

  lemma FramePrefix(b: seq<byte>, n: nat)
    requires FRAME_SIZE <= n <= |b|
    ensures FrameDecode(b[..n]) == FrameDecode(b)
  {
    hide Get16, Get64;
    assert b == b[..n] + b[n..];
    assert b[2..] == b[..n][2..] + b[n..] && b[4..] == b[..n][4..] + b[n..];
    Get16Prefix(b[..n][2..], b[n..]);
    Get64Prefix(b[..n][4..], b[n..]);
  }

  // ---------- cuts ----------

  /** The items that lie wholly inside the first n bytes. */
  function WhollyInside(items: seq<Item>, n: nat): seq<Item>
    requires ValidItems(items)
  {
    if items == [] || |ItemBytes(items[0])| > n then []
    else [items[0]] + WhollyInside(items[1..], n - |ItemBytes(items[0])|)
  }

  /** They are the longest run from the front that fits. */
  lemma {:induction false} WhollyInsideLongest(items: seq<Item>, n: nat)
    requires ValidItems(items)
    ensures var w := WhollyInside(items, n);
            && w <= items
            && |AllBytes(w)| <= n
            && (w != items ==> |AllBytes(items[..|w| + 1])| > n)
  {
    hide ItemBytes;
    if items != [] && |ItemBytes(items[0])| <= n {
      var m := n - |ItemBytes(items[0])|;
      WhollyInsideLongest(items[1..], m);
      var w := WhollyInside(items[1..], m);
      assert WhollyInside(items, n)[1..] == w;
      if w != items[1..] {
        assert items[..|w| + 2][1..] == items[1..][..|w| + 1];
      }
    } else if items != [] {
      assert items[..1] == [items[0]] && [items[0]][1..] == [];
      assert |AllBytes([items[0]])| == |ItemBytes(items[0])| + |AllBytes([])|;
    }
  }

  /** Cutting a file of sealed items anywhere leaves exactly the whole ones, then end of file. */
  lemma {:induction false} CutReadsWhole(promised: bool, items: seq<Item>, n: nat)
    requires ValidItems(items) && n <= |AllBytes(items)|
    ensures ValidItems(WhollyInside(items, n))
    ensures ReadAll(promised, AllBytes(items)[..n]) == (Meanings(WhollyInside(items, n)), Eof)
  {
    hide ItemBytes, StepOf, Known, ReadAll, Meaning;
    if items == [] {
      NothingRead(promised);
      assert AllBytes(items)[..n] == [];
    } else if |ItemBytes(items[0])| > n {
      CutRead(promised, items[0], n);
      assert AllBytes(items)[..n] == ItemBytes(items[0])[..n];
    } else {
      var size := |ItemBytes(items[0])|;
      CutReadsWhole(promised, items[1..], n - size);
      var w := WhollyInside(items[1..], n - size);
      assert ([items[0]] + w)[1..] == w;
      var more := AllBytes(items[1..])[..n - size];
      assert AllBytes(items)[..n] == ItemBytes(items[0]) + more;
      ReadOne(promised, items[0], more);
    }
  }

  lemma NothingRead(promised: bool)
    ensures ReadAll(promised, []) == ([], Eof)
  {
    hide StepOf;
    NothingEnds(promised);
  }

  lemma CutRead(promised: bool, it: Item, n: nat)
    requires ValidItem(it) && n < |ItemBytes(it)|
    ensures ReadAll(promised, ItemBytes(it)[..n]) == ([], Eof)
  {
    hide StepOf, ItemBytes;
    CutStep(promised, it, n);
  }

  /** Reading a sealed item delivers what it means, then what follows. */
  lemma ReadOne(promised: bool, it: Item, more: seq<byte>)
    requires ValidItem(it)
    ensures ReadAll(promised, ItemBytes(it) + more)
         == (Meaning(it) + ReadAll(promised, more).0, ReadAll(promised, more).1)
  {
    hide StepOf, ItemBytes;
    ItemStep(promised, it, more);
    ItemNonempty(it);
    if !Known(it.kind) { assert [] + ReadAll(promised, more).0 == ReadAll(promised, more).0; }
  }

  lemma ItemNonempty(it: Item)
    requires ValidItem(it)
    ensures |ItemBytes(it)| > 0
  {}

  lemma NothingEnds(promised: bool)
    ensures StepOf(promised, []) == Ended
  {}

  lemma {:induction false} AllInside(items: seq<Item>)
    requires ValidItems(items)
    ensures WhollyInside(items, |AllBytes(items)|) == items
  {
    hide ItemBytes;
    if items != [] { AllInside(items[1..]); }
  }

  /** Every item is read, in order, and then the file ends. */
  lemma ItemsRead(promised: bool, items: seq<Item>)
    requires ValidItems(items)
    ensures ReadAll(promised, AllBytes(items)) == (Meanings(items), Eof)
  {
    hide AllBytes, ReadAll, Meanings, WhollyInside;
    AllInside(items);
    CutReadsWhole(promised, items, |AllBytes(items)|);
    assert AllBytes(items)[..|AllBytes(items)|] == AllBytes(items);
  }

  // ---------- what this writer writes ----------

  function ItemOf(r: Record): (it: Item)
    ensures ValidItem(it)
  {
    Item(KindOf(r), FlagsOf(r), Payload(r), r.monoNs)
  }

  function ItemsOf(recs: seq<Record>): (items: seq<Item>)
    ensures ValidItems(items) && |items| == |recs|
  {
    if recs == [] then [] else [ItemOf(recs[0])] + ItemsOf(recs[1..])
  }

  /** The bytes a writer given these records appends after its header. */
  function Written(recs: seq<Record>): seq<byte> {
    AllBytes(ItemsOf(recs))
  }

  /** An item that carries r, with any payload a newer writer appended. */
  predicate Grown(it: Item, r: Record) {
    && it.kind == KindOf(r)
    && it.monoNs == r.monoNs
    && (r.Mag? ==> ValidBit(it.flags) == r.valid)
    && Payload(r) <= it.payload
    && |it.payload| <= 65531
  }

  lemma GrownMeans(it: Item, r: Record)
    requires Grown(it, r)
    ensures ValidItem(it) && Meaning(it) == [r]
  {
    hide Payload, ValidBit, Parse, LenField, KnownSize;
    SealBits(it.flags);
    assert it.payload[..KnownSize(it.kind)] == Payload(r) + [];
    ParsePayload(r, FrameOf(it), []);
    OwnKnown(r);
  }

  lemma OwnFlags(r: Record)
    requires r.Mag?
    ensures ValidBit(FlagsOf(r)) == r.valid
  {}

  lemma ItemOfGrown(r: Record)
    ensures Grown(ItemOf(r), r)
  {
    hide Payload, ValidBit, FlagsOf;
    if r.Mag? { OwnFlags(r); }
  }

  /** The items carry the records: each one grown, with unknown types anywhere between. */
  predicate Carries(items: seq<Item>, recs: seq<Record>) {
    if items == [] then recs == []
    else if !Known(items[0].kind) then |items[0].payload| <= 65531 && Carries(items[1..], recs)
    else recs != [] && Grown(items[0], recs[0]) && Carries(items[1..], recs[1..])
  }

  lemma {:induction false} CarriesMeans(items: seq<Item>, recs: seq<Record>)
    requires Carries(items, recs)
    ensures ValidItems(items) && Meanings(items) == recs
    decreases |items|
  {
    hide Grown, Parse, FrameOf;
    if items != [] {
      if !Known(items[0].kind) {
        CarriesMeans(items[1..], recs);
        assert [] + Meanings(items[1..]) == Meanings(items[1..]);
      } else {
        GrownMeans(items[0], recs[0]);
        CarriesMeans(items[1..], recs[1..]);
      }
      assert forall k :: 0 <= k < |items| ==> ValidItem(items[k]) by {
        forall k | 0 <= k < |items| ensures ValidItem(items[k]) {
          if k > 0 { assert items[k] == items[1..][k - 1]; }
        }
      }
    }
  }

  /** Unknown types between the records and fields appended to them change nothing delivered. */
  lemma AdditionsTransparent(promised: bool, items: seq<Item>, recs: seq<Record>)
    requires Carries(items, recs)
    ensures ValidItems(items) && ReadAll(promised, AllBytes(items)) == (recs, Eof)
  {
    CarriesMeans(items, recs);
    ItemsRead(promised, items);
  }

  lemma {:induction false} OwnCarries(recs: seq<Record>)
    ensures Carries(ItemsOf(recs), recs)
  {
    hide Grown;
    if recs != [] {
      ItemOfGrown(recs[0]);
      OwnKnown(recs[0]);
      OwnCarries(recs[1..]);
      assert ItemsOf(recs)[1..] == ItemsOf(recs[1..]);
    }
  }

  lemma OwnKnown(r: Record)
    ensures Known(KindOf(r))
  {}

  /** Reading back any list of written records gives that list, then end of file. */
  lemma RoundTrip(recs: seq<Record>)
    ensures ReadAll(true, Written(recs)) == (recs, Eof)
  {
    OwnCarries(recs);
    AdditionsTransparent(true, ItemsOf(recs), recs);
  }

  lemma {:induction false} ItemsOfTake(recs: seq<Record>, k: nat)
    requires k <= |recs|
    ensures ItemsOf(recs[..k]) == ItemsOf(recs)[..k]
  {
    hide ItemOf;
    if k > 0 {
      assert recs[..k][1..] == recs[1..][..k - 1];
      ItemsOfTake(recs[1..], k - 1);
      assert ItemsOf(recs)[..k] == [ItemOf(recs[0])] + ItemsOf(recs[1..])[..k - 1];
    }
  }

  /** Cutting a written file anywhere past the header leaves the records wholly before the cut. */
  lemma CutRoundTrip(recs: seq<Record>, n: nat)
    requires n <= |Written(recs)|
    ensures exists k :: 0 <= k <= |recs|
              && ReadAll(true, Written(recs)[..n]) == (recs[..k], Eof)
              && |Written(recs[..k])| <= n
              && (k < |recs| ==> |Written(recs[..k + 1])| > n)
  {
    hide ReadAll, AllBytes, Meanings;
    var items := ItemsOf(recs);
    var w := WhollyInside(items, n);
    WhollyInsideLongest(items, n);
    CutReadsWhole(true, items, n);
    var k := |w|;
    assert w == items[..k];
    ItemsOfTake(recs, k);
    OwnCarries(recs[..k]);
    CarriesMeans(ItemsOf(recs[..k]), recs[..k]);
    if k < |recs| { ItemsOfTake(recs, k + 1); }
  }

  // ---------- errors ----------

  /** The length field, bytes 2 and 3 of the frame, is as it was. */
  predicate SameLength(a: seq<byte>, b: seq<byte>) {
    |a| == |b| && |a| >= FRAME_SIZE && a[2] == b[2] && a[3] == b[3]
  }

  /** What the reader makes of a sealed item damaged by a burst outside its length field: the record is
      not delivered and not skipped.  It is reported, except that a type turned into one too long for
      the length reads as the end of the file. */
  lemma BurstStep(it: Item, bad: seq<byte>, i: nat, rest: seq<byte>)
    requires ValidItem(it) && BurstError(ItemBytes(it), bad, i) && SameLength(ItemBytes(it), bad)
    ensures var f := FrameDecode(bad);
            StepOf(true, bad + rest)
              == if Sealed(f) && |it.payload| + 4 < Min(f.kind, true) then Ended else Damaged
  {
    hide Codeword, Sealed, ItemBytes, FrameOf, BurstError, FrameDecode, Min, LenOf;
    FrameAhead(it, []);
    assert ItemBytes(it) + [] == ItemBytes(it);
    LengthKept(ItemBytes(it), bad);
    var s := bad + rest;
    FramePrefix(s, |bad|);
    assert s[..|bad|] == bad;
    ItemIsCodeword(it);
    BurstBreaksCodeword(ItemBytes(it), bad, i);
    BrokenStep(s, |bad|);
  }

  lemma BrokenStep(s: seq<byte>, n: nat)
    requires FRAME_SIZE <= n <= |s| && LenOf(FrameDecode(s)) == n - FRAME_SIZE && !Codeword(s[..n])
    ensures var f := FrameDecode(s);
            StepOf(true, s) == if Sealed(f) && n - FRAME_SIZE < Min(f.kind, true) then Ended else Damaged
  {
    hide Codeword, Sealed, FrameDecode, SealedStep, PlainStep, KnownSize, LenOf;
    var f := FrameDecode(s);
    if Sealed(f) && n - FRAME_SIZE >= Min(f.kind, true) { BrokenSealed(f, n - FRAME_SIZE, s); }
  }

  lemma BrokenSealed(f: Frame, len: nat, s: seq<byte>)
    requires FRAME_SIZE + len <= |s| && len >= KnownSize(f.kind) + 4 && !Codeword(s[..FRAME_SIZE + len])
    ensures SealedStep(f, len, s) == Damaged
  {
    hide Codeword, Taken, KnownSize;
  }

  lemma LengthKept(a: seq<byte>, b: seq<byte>)
    requires SameLength(a, b)
    ensures LenOf(FrameDecode(a)) == LenOf(FrameDecode(b))
  {
    hide Pair, Get64;
  }

  lemma {:induction false} ItemsThen(promised: bool, items: seq<Item>, s: seq<byte>)
    requires ValidItems(items)
    ensures ReadAll(promised, AllBytes(items) + s) == (Meanings(items) + ReadAll(promised, s).0, ReadAll(promised, s).1)
  {
    hide ItemBytes, StepOf, Known;
    if items == [] {
      assert AllBytes(items) + s == s;
      assert Meanings(items) + ReadAll(promised, s).0 == ReadAll(promised, s).0;
    } else {
      ItemsThen(promised, items[1..], s);
      var more := AllBytes(items[1..]) + s;
      assert AllBytes(items) + s == ItemBytes(items[0]) + more;
      ItemStep(promised, items[0], more);
      assert Meaning(items[0]) + (Meanings(items[1..]) + ReadAll(promised, s).0)
          == Meaning(items[0]) + Meanings(items[1..]) + ReadAll(promised, s).0;
      if !Known(items[0].kind) {
        assert [] + Meanings(items[1..]) == Meanings(items[1..]);
      }
    }
  }

  /** Any mark record is such a case: two bits of its type make it an IMU record too short to be one. */
  lemma DamagedMarkEnds(r: Record, rest: seq<byte>)
    requires r.Mark?
    ensures var bad := [REC_IMU] + ItemBytes(ItemOf(r))[1..];
            && ItemOf(r).kind == REC_MARK
            && BurstError(ItemBytes(ItemOf(r)), bad, 0) && SameLength(ItemBytes(ItemOf(r)), bad)
            && StepOf(true, bad + rest) == Ended
  {
    var it := ItemOf(r);
    var a := ItemBytes(it);
    var bad := [REC_IMU] + a[1..];
    MarkFrame(r);
    FirstByteBurst(a, REC_IMU);
    hide ItemBytes, StepOf, BurstError, FrameDecode, ItemOf;
    BurstStep(it, bad, 0, rest);
    FlippedFrame(a, bad);
  }

  lemma MarkFrame(r: Record)
    requires r.Mark?
    ensures var a := ItemBytes(ItemOf(r));
            && ItemOf(r).kind == REC_MARK && |ItemOf(r).payload| == 4 && |a| == FRAME_SIZE + 8
            && a[0] == REC_MARK && FrameDecode(a) == FrameOf(ItemOf(r)) && Sealed(FrameOf(ItemOf(r)))
  {
    hide FrameDecode, FrameOf, Sealed;
    FrameAhead(ItemOf(r), []);
    assert ItemBytes(ItemOf(r)) + [] == ItemBytes(ItemOf(r));
    MarkKind(r);
  }

  lemma MarkKind(r: Record)
    requires r.Mark?
    ensures ItemBytes(ItemOf(r))[0] == REC_MARK
  {}

  /** A changed first byte is a burst of eight bits. */
  lemma FirstByteBurst(a: seq<byte>, b0: byte)
    requires a != [] && a[0] != b0
    ensures BurstError(a, [b0] + a[1..], 0)
  {
    hide BitsOf;
    var b := [b0] + a[1..];
    assert a[0] != b[0] && b[1..] == a[1..];
    assert Bits(a) == BitsOf(a[0]) + Bits(a[1..]);
    assert Bits(b) == BitsOf(b0) + Bits(a[1..]);
  }

  lemma FlippedFrame(a: seq<byte>, bad: seq<byte>)
    requires |a| >= FRAME_SIZE && bad == [REC_IMU] + a[1..] && Sealed(FrameDecode(a))
    ensures Sealed(FrameDecode(bad)) && FrameDecode(bad).kind == REC_IMU && Min(REC_IMU, true) == 40
    ensures SameLength(a, bad)
  {}

  /** In a file whose header promises CRCs, a record changed within 32 consecutive bits that avoid its
      length ends the reading there: everything before it is delivered, nothing from it on. */
  lemma DamageStopsReading(items: seq<Item>, it: Item, bad: seq<byte>, i: nat, rest: seq<byte>)
    requires ValidItems(items) && ValidItem(it)
    requires BurstError(ItemBytes(it), bad, i) && SameLength(ItemBytes(it), bad)
    ensures var f := FrameDecode(bad);
            ReadAll(true, AllBytes(items) + (bad + rest))
              == (Meanings(items), if Sealed(f) && |it.payload| + 4 < Min(f.kind, true) then Eof else CrcError)
  {
    hide ItemBytes, StepOf, Sealed, FrameDecode, BurstError, AllBytes, Meanings, LenOf;
    BurstStep(it, bad, i, rest);
    ItemsThen(true, items, bad + rest);
    assert Meanings(items) + [] == Meanings(items);
  }
}
