/**
 The little-endian accessors of include/wire.h (and their copies in lib/imud_client.h),
 and what a trailing little-endian CRC makes of a buffer: a codeword that no error
 within 32 consecutive bits turns into another one.
 */
module Wire {
  import opened Crc32

  // ---------- stores and loads ----------

  function Put16(v: bv16): (b: seq<byte>)
    ensures |b| == 2
  {
    [Low8(v), High8(v)]
  }

  function Low8(v: bv16): byte { (v & 0xFF) as byte }
  function High8(v: bv16): byte { (v >> 8) as byte }

  function Byte0(v: bv32): byte { (v & 0xFF) as byte }
  function Byte1(v: bv32): byte { ((v >> 8) & 0xFF) as byte }
  function Byte2(v: bv32): byte { ((v >> 16) & 0xFF) as byte }
  function Byte3(v: bv32): byte { (v >> 24) as byte }

  function Put32(v: bv32): (b: seq<byte>)
    ensures |b| == 4
  {
    [Byte0(v), Byte1(v), Byte2(v), Byte3(v)]
  }

  function Put64(v: bv64): (b: seq<byte>)
    ensures |b| == 8
  {
    Put32(Low32(v)) + Put32(High32(v))
  }

  function Low32(v: bv64): bv32 { (v & 0xFFFF_FFFF) as bv32 }
  function High32(v: bv64): bv32 { (v >> 32) as bv32 }

  function Get16(b: seq<byte>): bv16
    requires |b| >= 2
  {
    Pair(b[0], b[1])
  }

  function Pair(a: byte, b: byte): bv16 {
    (a as bv16) | ((b as bv16) << 8)
  }

  function Get32(b: seq<byte>): bv32
    requires |b| >= 4
  {
    Join(b[0], b[1], b[2], b[3])
  }

  function Join(a: byte, b: byte, c: byte, d: byte): bv32 {
    (a as bv32) | ((b as bv32) << 8) | ((c as bv32) << 16) | ((d as bv32) << 24)
  }

  function Get64(b: seq<byte>): bv64
    requires |b| >= 8
  {
    Join64(Get32(b), Get32(b[4..]))
  }

  function Join64(lo: bv32, hi: bv32): bv64 {
    (lo as bv64) | ((hi as bv64) << 32)
  }

  lemma RoundTrip16(v: bv16)
    ensures Get16(Put16(v)) == v
  {}

  lemma BytesOfPair(a: byte, b: byte)
    ensures Low8(Pair(a, b)) == a && High8(Pair(a, b)) == b
  {}

  lemma RoundTrip32(v: bv32)
    ensures Get32(Put32(v)) == v
  {}

  lemma RoundTrip64(v: bv64)
    ensures Get64(Put64(v)) == v
  {
    hide Put32, Get32, Low32, High32, Join64;
    Halves(v);
    assert Put64(v)[4..] == Put32(High32(v));
    Get32Prefix(Put32(Low32(v)), Put32(High32(v)));
    RoundTrip32(Low32(v));
    RoundTrip32(High32(v));
  }

  lemma Halves(v: bv64)
    ensures Join64(Low32(v), High32(v)) == v
  {}

  lemma HalvesOf(lo: bv32, hi: bv32)
    ensures Low32(Join64(lo, hi)) == lo && High32(Join64(lo, hi)) == hi
  {}

  lemma Get32Prefix(a: seq<byte>, b: seq<byte>)
    requires |a| >= 4
    ensures Get32(a + b) == Get32(a)
  {}

  lemma BytesOfJoin(a: byte, b: byte, c: byte, d: byte)
    ensures Byte0(Join(a, b, c, d)) == a && Byte1(Join(a, b, c, d)) == b
    ensures Byte2(Join(a, b, c, d)) == c && Byte3(Join(a, b, c, d)) == d
  {}

  lemma PutGet32(b: seq<byte>)
    requires |b| == 4
    ensures Put32(Get32(b)) == b
  {
    hide Join, Byte0, Byte1, Byte2, Byte3;
    BytesOfJoin(b[0], b[1], b[2], b[3]);
  }

  // ---------- four byte steps are one word step ----------

  lemma EvenIsHalf(u: bv32)
    requires !Odd(u)
    ensures Shift(u) == u >> 1
  {}

  /** Eight shifts of a word whose low byte is clear are a plain shift by eight. */
  lemma ClearByteShifts(u: bv32)
    requires u & 0xFF == 0 as bv32
    ensures Shifts(u, 8) == u >> 8
  {
    hide Shift;
    var u1 := u >> 1; var u2 := u1 >> 1; var u3 := u2 >> 1; var u4 := u3 >> 1;
    var u5 := u4 >> 1; var u6 := u5 >> 1; var u7 := u6 >> 1;
    ClearBits(u, u1, u2, u3, u4, u5, u6, u7);
    EvenIsHalf(u); EvenIsHalf(u1); EvenIsHalf(u2); EvenIsHalf(u3);
    EvenIsHalf(u4); EvenIsHalf(u5); EvenIsHalf(u6); EvenIsHalf(u7);
    hide Shifts;
    PeelShift(u, 8); PeelShift(u1, 7); PeelShift(u2, 6); PeelShift(u3, 5);
    PeelShift(u4, 4); PeelShift(u5, 3); PeelShift(u6, 2); PeelShift(u7, 1);
    NoShift(u7 >> 1);
  }

  lemma ClearBits(u: bv32, u1: bv32, u2: bv32, u3: bv32, u4: bv32, u5: bv32, u6: bv32, u7: bv32)
    requires u & 0xFF == 0 as bv32
    requires u1 == u >> 1 && u2 == u1 >> 1 && u3 == u2 >> 1 && u4 == u3 >> 1
    requires u5 == u4 >> 1 && u6 == u5 >> 1 && u7 == u6 >> 1
    ensures !Odd(u) && !Odd(u1) && !Odd(u2) && !Odd(u3)
    ensures !Odd(u4) && !Odd(u5) && !Odd(u6) && !Odd(u7)
    ensures u7 >> 1 == u >> 8
  {}

  lemma PeelShift(c: bv32, n: nat)
    requires n > 0
    ensures Shifts(c, n) == Shifts(Shift(c), n - 1)
  {}

  lemma NoShift(c: bv32)
    ensures Shifts(c, 0) == c
  {}

  lemma SplitLowByte(c: bv32, w: bv32)
    ensures Xor(c, w) == Xor(Xor(c, w & 0xFF), w & 0xFFFF_FF00)
    ensures (w & 0xFFFF_FF00) & 0xFF == 0 as bv32
    ensures (w & 0xFFFF_FF00) >> 8 == w >> 8
  {}

  /** One byte step consumes the low byte of a word and leaves the rest of it to come. */
  lemma ByteStep(c: bv32, w: bv32)
    ensures Shifts(Xor(c, w), 8) == Xor(Shifts(Xor(c, w & 0xFF), 8), w >> 8)
  {
    SplitLowByte(c, w);
    ClearByteShifts(w & 0xFFFF_FF00);
    ByteStepJoin(c, w, w & 0xFF, w & 0xFFFF_FF00);
  }

  lemma ByteStepJoin(c: bv32, w: bv32, lo: bv32, hi: bv32)
    requires Xor(c, w) == Xor(Xor(c, lo), hi) && Shifts(hi, 8) == w >> 8
    ensures Shifts(Xor(c, w), 8) == Xor(Shifts(Xor(c, lo), 8), w >> 8)
  {
    hide Shifts, Xor;
    ShiftsLinear(Xor(c, lo), hi, 8);
  }

  lemma WordBytes(w: bv32, w1: bv32, w2: bv32, w3: bv32)
    requires w1 == w >> 8 && w2 == w1 >> 8 && w3 == w2 >> 8
    ensures Put32(w) == [(w & 0xFF) as byte, (w1 & 0xFF) as byte, (w2 & 0xFF) as byte, (w3 & 0xFF) as byte]
    ensures w3 >> 8 == 0
  {}

  lemma ByteOfLow(c: bv32, w: bv32)
    ensures Byte(c, (w & 0xFF) as byte) == Shifts(Xor(c, w & 0xFF), 8)
  {
    hide Shifts;
  }

  lemma UpdateFour(c: bv32, a: byte, b: byte, d: byte, e: byte)
    ensures Update(c, [a, b, d, e]) == Byte(Byte(Byte(Byte(c, a), b), d), e)
  {
    hide Byte;
    assert [a, b, d, e][..3] == [a, b, d];
    assert [a, b, d][..2] == [a, b];
    assert [a, b][..1] == [a];
    assert [a][..0] == [];
    assert Update(c, [a]) == Byte(c, a);
    assert Update(c, [a, b]) == Byte(Update(c, [a]), b);
    assert Update(c, [a, b, d]) == Byte(Update(c, [a, b]), d);
  }

  /** Feeding the four bytes of a word is XORing the word in and shifting 32 times. */
  lemma WordStep(c: bv32, w: bv32)
    ensures Update(c, Put32(w)) == Shifts(Xor(c, w), 32)
  {
    var w1 := w >> 8; var w2 := w1 >> 8; var w3 := w2 >> 8;
    WordBytes(w, w1, w2, w3);
    WordStepRun(c, w, w1, w2, w3);
  }

  lemma WordStepRun(c: bv32, w: bv32, w1: bv32, w2: bv32, w3: bv32)
    requires w1 == w >> 8 && w2 == w1 >> 8 && w3 == w2 >> 8 && w3 >> 8 == 0
    requires Put32(w) == [(w & 0xFF) as byte, (w1 & 0xFF) as byte, (w2 & 0xFF) as byte, (w3 & 0xFF) as byte]
    ensures Update(c, Put32(w)) == Shifts(Xor(c, w), 32)
  {
    hide Shifts, Xor, Byte, Update, Put32;
    UpdateFour(c, (w & 0xFF) as byte, (w1 & 0xFF) as byte, (w2 & 0xFF) as byte, (w3 & 0xFF) as byte);
    var c1 := Byte(c, (w & 0xFF) as byte);
    var c2 := Byte(c1, (w1 & 0xFF) as byte);
    var c3 := Byte(c2, (w2 & 0xFF) as byte);
    var c4 := Byte(c3, (w3 & 0xFF) as byte);
    ByteStep(c, w);
    ByteOfLow(c, w);
    ByteStep(c1, w1);
    ByteOfLow(c1, w1);
    ByteStep(c2, w2);
    ByteOfLow(c2, w2);
    ByteStep(c3, w3);
    ByteOfLow(c3, w3);
    XorLaws(c4, 0, 0);
    ShiftsAdd(Xor(c, w), 8, 24);
    ShiftsAdd(Xor(c1, w1), 8, 16);
    ShiftsAdd(Xor(c2, w2), 8, 8);
  }

  // ---------- codewords ----------

  /** The buffer ends in the little-endian CRC of what comes before it. */
  predicate Codeword(b: seq<byte>) {
    |b| >= 4 && Crc(b[..|b| - 4]) == Get32(b[|b| - 4..])
  }

  /** The register every codeword leaves behind. */
  function Residue(): bv32 {
    Shifts(0xFFFF_FFFF, 32)
  }

  lemma XorFull(c: bv32, w: bv32)
    ensures Xor(c, 0xFFFF_FFFF) == w <==> Xor(c, w) == 0xFFFF_FFFF
  {
    hide Xor;
    XorLaws(c, c, 0xFFFF_FFFF);
    XorLaws(c, c, w);
    XorLaws(0xFFFF_FFFF, w, 0);
    XorLaws(w, c, 0);
  }

  /** A buffer is a codeword exactly when the whole of it runs the register to the residue. */
  lemma CodewordResidue(b: seq<byte>)
    requires |b| >= 4
    ensures Codeword(b) <==> Update(INIT, b) == Residue()
  {
    hide Shifts, Xor, Byte, Get32, Put32, Update;
    var body, tail := b[..|b| - 4], b[|b| - 4..];
    assert b == body + tail;
    var c, w := Update(INIT, body), Get32(tail);
    PutGet32(tail);
    UpdateAppend(INIT, body, tail);
    WordStep(c, w);
    XorFull(c, w);
    if Shifts(Xor(c, w), 32) == Residue() { ShiftsInjective(Xor(c, w), 0xFFFF_FFFF, 32); }
  }

  /** Appending the CRC of a buffer makes a codeword. */
  lemma SealedIsCodeword(b: seq<byte>)
    ensures Codeword(b + Put32(Crc(b)))
  {
    hide Put32, Get32, Crc;
    var s := b + Put32(Crc(b));
    assert s[..|s| - 4] == b && s[|s| - 4..] == Put32(Crc(b));
    RoundTrip32(Crc(b));
  }

  lemma WideInjective(a: byte, b: byte)
    requires a as bv32 == b as bv32
    ensures a == b
  {}

  /** A byte can be told from its bits: they drive the register to places only it reaches. */
  lemma BitsOfInjective(a: byte, b: byte)
    requires BitsOf(a) == BitsOf(b)
    ensures a == b
  {
    hide Shifts, Xor, Serial, LowBits, Fits;
    FitsByte(a);
    FitsByte(b);
    WordAtOnce(0, a as bv32, 8);
    WordAtOnce(0, b as bv32, 8);
    ShiftsInjective(Xor(0, a as bv32), Xor(0, b as bv32), 8);
    XorLaws(a as bv32, 0, 0);
    XorLaws(b as bv32, 0, 0);
    WideInjective(a, b);
  }

  /** Different bytes are different bits. */
  lemma {:induction false} BitsInjective(a: seq<byte>, b: seq<byte>)
    requires |a| == |b| && Bits(a) == Bits(b)
    ensures a == b
  {
    hide BitsOf;
    if a != [] {
      assert Bits(a)[..8] == BitsOf(a[0]) && Bits(a)[8..] == Bits(a[1..]);
      assert Bits(b)[..8] == BitsOf(b[0]) && Bits(b)[8..] == Bits(b[1..]);
      BitsOfInjective(a[0], b[0]);
      BitsInjective(a[1..], b[1..]);
      assert a == [a[0]] + a[1..] && b == [b[0]] + b[1..];
    }
  }

  /** b differs from a, and only within 32 consecutive bits, bytes taken low bit first. */
  predicate BurstError(a: seq<byte>, b: seq<byte>, i: nat) {
    |a| == |b| && a != b && WithinWindow(Bits(a), Bits(b), i)
  }

  /** No burst turns a codeword into a codeword; the CRC field itself is inside the reach of it. */
  lemma BurstBreaksCodeword(a: seq<byte>, b: seq<byte>, i: nat)
    requires Codeword(a) && BurstError(a, b, i)
    ensures !Codeword(b)
  {
    hide Codeword, Update, Serial, Residue;
    assert |a| >= 4 by { CodewordLong(a); }
    CodewordResidue(a);
    CodewordResidue(b);
    UpdateIsSerial(INIT, a);
    UpdateIsSerial(INIT, b);
    if Bits(a) == Bits(b) { BitsInjective(a, b); }
    BurstDetected(INIT, Bits(a), Bits(b), i);
  }

  lemma CodewordLong(a: seq<byte>)
    requires Codeword(a)
    ensures |a| >= 4
  {}
}
