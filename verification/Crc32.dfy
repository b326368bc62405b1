/**
 The IEEE 802.3 CRC-32 of include/crc32.h (clause 3.2.9 of IEEE Std 802.3), in its
 reflected bitwise form.

 `Update` is the byte-at-a-time definition the loops compute.  `Serial` is the
 reference definition it is held against: a 32-bit shift register fed one message
 bit at a time, least significant bit of each byte first.  The burst guarantee is
 proved on `Serial`, and carried to bytes by `UpdateIsSerial`.
 */
module Crc32 {
  type byte = bv8

  const INIT: bv32 := 0xFFFF_FFFF as bv32
  const POLY: bv32 := 0xEDB8_8320 as bv32

  /** The bit about to be shifted out. */
  predicate Odd(c: bv32) {
    c & 1 != 0
  }

  /** One turn of the inner loop: shift right, folding the polynomial in for a 1. */
  function Shift(c: bv32): bv32 {
    (c >> 1) ^ (if Odd(c) then POLY else 0 as bv32)
  }

  /** Exclusive or, named so that proofs about runs can hide its bits. */
  function Xor(a: bv32, b: bv32): bv32 {
    a ^ b
  }

  function Shifts(c: bv32, n: nat): bv32
    decreases n
  {
    if n == 0 then c else Shifts(Shift(c), n - 1)
  }

  function Byte(c: bv32, b: byte): bv32 {
    Shifts(Xor(c, b as bv32), 8)
  }

  function Update(c: bv32, data: seq<byte>): bv32
    decreases |data|
  {
    if data == [] then c
    else Byte(Update(c, data[..|data| - 1]), data[|data| - 1])
  }

  function Final(c: bv32): bv32 {
    Xor(c, 0xFFFF_FFFF)
  }

  function Crc(data: seq<byte>): bv32 {
    Final(Update(INIT, data))
  }

  // ---------- the loops of the source ----------

  lemma MaskIsFold(c: bv32)
    ensures (c >> 1) ^ (POLY & (0 - (c & 1))) == Shift(c)
  {
    LowBitValue(c);
    MaskOf(c & 1);
  }

  lemma LowBitValue(c: bv32)
    ensures c & 1 == if Odd(c) then 1 as bv32 else 0 as bv32
  {}

  lemma MaskOf(l: bv32)
    requires l == 0 as bv32 || l == 1 as bv32
    ensures POLY & (0 - l) == if l == 1 as bv32 then POLY else 0 as bv32
  {
    if l == 1 as bv32 {
      assert 0 - l == 0xFFFF_FFFF as bv32;
    } else {
      assert 0 - l == 0 as bv32;
    }
  }

  lemma ShiftsSnoc(c: bv32, n: nat)
    ensures Shifts(c, n + 1) == Shift(Shifts(c, n))
    decreases n
  {
    hide Shift;
    if n > 0 { ShiftsSnoc(Shift(c), n - 1); }
  }

  /** The inner loop of crc32_ieee_update. */
  method EightShifts(c: bv32) returns (r: bv32)
    ensures r == Shifts(c, 8)
  {
    hide Shift;
    r := c;
    for b := 0 to 8
      invariant r == Shifts(c, b)
    {
      MaskIsFold(r);
      ShiftsSnoc(c, b);
      r := (r >> 1) ^ (POLY & (0 - (r & 1)));
    }
  }

  /** crc32_ieee_update: feed `data` into a running CRC. */
  method Crc32Update(crc: bv32, data: seq<byte>) returns (r: bv32)
    ensures r == Update(crc, data)
  {
    hide Xor, Shifts;
    r := crc;
    for i := 0 to |data|
      invariant r == Update(crc, data[..i])
    {
      assert data[..i + 1][..i] == data[..i];
      r := Xor(r, data[i] as bv32);
      r := EightShifts(r);
    }
    assert data[..|data|] == data;
  }

  /** crc32_ieee: the whole checksum of one buffer. */
  method Crc32Ieee(data: seq<byte>) returns (r: bv32)
    ensures r == Crc(data)
  {
    r := Crc32Update(INIT, data);
    r := Final(r);
  }

  /** Feeding two chunks in turn is feeding their concatenation. */
  lemma {:induction false} UpdateAppend(c: bv32, a: seq<byte>, b: seq<byte>)
    ensures Update(c, a + b) == Update(Update(c, a), b)
    decreases |b|
  {
    hide Byte;
    if b == [] {
      assert a + b == a;
    } else {
      assert (a + b)[..|a + b| - 1] == a + b[..|b| - 1];
      UpdateAppend(c, a, b[..|b| - 1]);
    }
  }

  // ---------- the bit-serial reference ----------

  function BitStep(c: bv32, bit: bool): bv32 {
    Shift(Xor(c, if bit then 1 as bv32 else 0 as bv32))
  }

  function Serial(c: bv32, bits: seq<bool>): bv32
    decreases |bits|
  {
    if bits == [] then c else Serial(BitStep(c, bits[0]), bits[1..])
  }

  /** The n low bits of w, least significant first. */
  function LowBits(w: bv32, n: nat): (bits: seq<bool>)
    ensures |bits| == n
    decreases n
  {
    if n == 0 then [] else [Odd(w)] + LowBits(w >> 1, n - 1)
  }

  function BitsOf(b: byte): (bits: seq<bool>)
    ensures |bits| == 8
  {
    LowBits(b as bv32, 8)
  }

  function Bits(data: seq<byte>): (bits: seq<bool>)
    ensures |bits| == 8 * |data|
  {
    if data == [] then [] else BitsOf(data[0]) + Bits(data[1..])
  }

  lemma {:induction false} SerialAppend(c: bv32, a: seq<bool>, b: seq<bool>)
    ensures Serial(c, a + b) == Serial(Serial(c, a), b)
    decreases |a|
  {
    hide BitStep;
    if a == [] {
      assert a + b == b;
    } else {
      assert (a + b)[1..] == a[1..] + b;
      SerialAppend(BitStep(c, a[0]), a[1..], b);
    }
  }

  lemma SeqAssoc<T>(a: seq<T>, b: seq<T>, c: seq<T>)
    ensures a + (b + c) == (a + b) + c
  {}

  lemma {:induction false} BitsAppend(a: seq<byte>, b: seq<byte>)
    ensures Bits(a + b) == Bits(a) + Bits(b)
  {
    hide BitsOf;
    if a == [] {
      assert a + b == b;
    } else {
      BitsAppend(a[1..], b);
      assert (a + b)[1..] == a[1..] + b;
      SeqAssoc(BitsOf(a[0]), Bits(a[1..]), Bits(b));
    }
  }

  // ---------- algebra of one shift ----------

  lemma XorBothOdd(x: bv32, y: bv32)
    requires Odd(x) && Odd(y)
    ensures Shift(x ^ y) == Shift(x) ^ Shift(y)
  {
    assert !Odd(x ^ y);
  }

  lemma XorOneOdd(x: bv32, y: bv32)
    requires Odd(x) && !Odd(y)
    ensures Shift(x ^ y) == Shift(x) ^ Shift(y)
  {
    assert Odd(x ^ y);
  }

  lemma XorBothEven(x: bv32, y: bv32)
    requires !Odd(x) && !Odd(y)
    ensures Shift(x ^ y) == Shift(x) ^ Shift(y)
  {
    assert !Odd(x ^ y);
  }

  lemma XorComm(a: bv32, b: bv32)
    ensures Xor(a, b) == Xor(b, a)
  {}

  lemma XorAssoc(a: bv32, b: bv32, c: bv32)
    ensures Xor(Xor(a, b), c) == Xor(a, Xor(b, c))
  {}

  lemma XorSelf(a: bv32)
    ensures Xor(a, a) == 0 as bv32
    ensures Xor(a, 0) == a == Xor(0, a)
  {}

  lemma XorLaws(a: bv32, b: bv32, c: bv32)
    ensures Xor(a, b) == Xor(b, a)
    ensures Xor(Xor(a, b), c) == Xor(a, Xor(b, c))
    ensures Xor(a, a) == 0 as bv32
    ensures Xor(a, 0) == a == Xor(0, a)
  {
    hide Xor;
    XorComm(a, b);
    XorAssoc(a, b, c);
    XorSelf(a);
  }

  lemma ShiftLinear(x: bv32, y: bv32)
    ensures Shift(Xor(x, y)) == Xor(Shift(x), Shift(y))
  {
    if Odd(x) {
      if Odd(y) { XorBothOdd(x, y); } else { XorOneOdd(x, y); }
    } else if Odd(y) {
      XorOneOdd(y, x);
      XorLaws(x, y, 0);
      XorLaws(Shift(x), Shift(y), 0);
    } else {
      XorBothEven(x, y);
    }
  }

  /** The step is a bijection of the register: no two states meet. */
  lemma ShiftInjective(x: bv32, y: bv32)
    requires Shift(x) == Shift(y)
    ensures x == y
  {}

  lemma {:induction false} ShiftsLinear(x: bv32, y: bv32, n: nat)
    ensures Shifts(Xor(x, y), n) == Xor(Shifts(x, n), Shifts(y, n))
    decreases n
  {
    hide Shift, Xor;
    if n > 0 {
      ShiftLinear(x, y);
      ShiftsLinear(Shift(x), Shift(y), n - 1);
    }
  }

  lemma {:induction false} ShiftsInjective(x: bv32, y: bv32, n: nat)
    requires Shifts(x, n) == Shifts(y, n)
    ensures x == y
    decreases n
  {
    hide Shift;
    if n > 0 {
      ShiftsInjective(Shift(x), Shift(y), n - 1);
      ShiftInjective(x, y);
    }
  }

  lemma {:induction false} ShiftsAdd(c: bv32, m: nat, n: nat)
    ensures Shifts(c, m + n) == Shifts(Shifts(c, m), n)
    decreases m
  {
    hide Shift;
    if m > 0 { ShiftsAdd(Shift(c), m - 1, n); }
  }

  // ---------- bytes are bits ----------

  /** w has no bit at or above position n. */
  predicate Fits(w: bv32, n: nat)
    decreases n
  {
    if n == 0 then w == 0 as bv32 else Fits(w >> 1, n - 1)
  }

  lemma EvenShift(w: bv32)
    ensures Shift(Xor(w, w & 1)) == w >> 1
  {
    assert !Odd(w ^ (w & 1));
    assert (w ^ (w & 1)) >> 1 == w >> 1;
  }

  lemma PeelBit(c: bv32, w: bv32)
    ensures Shift(Xor(c, w)) == Xor(Shift(Xor(c, w & 1)), w >> 1)
  {
    var l := w & 1;
    assert Xor(c, w) == Xor(Xor(c, l), Xor(w, l));
    EvenShift(w);
    PeelBitShifted(c, w, l);
  }

  lemma PeelBitShifted(c: bv32, w: bv32, l: bv32)
    requires Xor(c, w) == Xor(Xor(c, l), Xor(w, l))
    requires Shift(Xor(w, l)) == w >> 1
    ensures Shift(Xor(c, w)) == Xor(Shift(Xor(c, l)), w >> 1)
  {
    hide Shift, Xor;
    ShiftLinear(Xor(c, l), Xor(w, l));
  }

  /** n bits fed one at a time are the n-bit word XORed in first, then n shifts. */
  lemma {:induction false} WordAtOnce(c: bv32, w: bv32, n: nat)
    requires Fits(w, n)
    ensures Serial(c, LowBits(w, n)) == Shifts(Xor(c, w), n)
    decreases n
  {
    hide Shift, Xor;
    if n == 0 {
      XorLaws(c, 0, 0);
    } else {
      LowBitValue(w);
      PeelBit(c, w);
      WordAtOnce(BitStep(c, Odd(w)), w >> 1, n - 1);
      assert LowBits(w, n)[1..] == LowBits(w >> 1, n - 1);
    }
  }

  lemma FitsHalf(w: bv32, n: nat)
    requires 0 < n && Fits(w >> 1, n - 1)
    ensures Fits(w, n)
  {}

  lemma FitsByte(b: byte)
    ensures Fits(b as bv32, 8)
  {
    var w := b as bv32;
    var w1 := w >> 1; var w2 := w1 >> 1; var w3 := w2 >> 1; var w4 := w3 >> 1;
    var w5 := w4 >> 1; var w6 := w5 >> 1; var w7 := w6 >> 1; var w8 := w7 >> 1;
    assert w8 == 0;
    FitsHalf(w7, 1); FitsHalf(w6, 2); FitsHalf(w5, 3); FitsHalf(w4, 4);
    FitsHalf(w3, 5); FitsHalf(w2, 6); FitsHalf(w1, 7); FitsHalf(w, 8);
  }

  /** The byte loop computes the bit-serial register. */
  lemma {:induction false} UpdateIsSerial(c: bv32, data: seq<byte>)
    ensures Update(c, data) == Serial(c, Bits(data))
    decreases |data|
  {
    hide Shifts, Xor, LowBits, BitStep;
    if data != [] {
      var b := data[0];
      FitsByte(b);
      WordAtOnce(c, b as bv32, 8);
      SerialAppend(c, BitsOf(b), Bits(data[1..]));
      UpdateIsSerial(Byte(c, b), data[1..]);
      assert data == [b] + data[1..];
      UpdateAppend(c, [b], data[1..]);
      assert Update(c, [b]) == Byte(Update(c, []), b);
    }
  }

  // ---------- linearity of a whole run ----------

  function Differ(a: seq<bool>, b: seq<bool>): (d: seq<bool>)
    requires |a| == |b|
    ensures |d| == |a|
    ensures forall i :: 0 <= i < |d| ==> d[i] == (a[i] != b[i])
  {
    seq(|a|, i requires 0 <= i < |a| => a[i] != b[i])
  }

  lemma BitStepLinear(x: bv32, y: bv32, p: bool, q: bool)
    ensures BitStep(Xor(x, y), p != q) == Xor(BitStep(x, p), BitStep(y, q))
  {
    hide Shift, Xor;
    var u, v := if p then 1 else 0, if q then 1 else 0;
    BitXor(p, q);
    FourXor(x, y, u, v);
    ShiftLinear(Xor(x, u), Xor(y, v));
  }

  lemma BitXor(p: bool, q: bool)
    ensures Xor(if p then 1 else 0, if q then 1 else 0) == if p != q then 1 else 0
  {}

  lemma FourXor(x: bv32, y: bv32, u: bv32, v: bv32)
    ensures Xor(Xor(x, y), Xor(u, v)) == Xor(Xor(x, u), Xor(y, v))
  {
    hide Xor;
    XorLaws(x, y, Xor(u, v));
    XorLaws(y, u, v);
    XorLaws(u, y, v);
    XorLaws(x, u, Xor(y, v));
  }

  /** Registers that differ by d, fed streams that differ by e, differ by d's run on e. */
  lemma {:induction false} SerialLinear(x: bv32, y: bv32, a: seq<bool>, b: seq<bool>)
    requires |a| == |b|
    ensures Serial(Xor(x, y), Differ(a, b)) == Xor(Serial(x, a), Serial(y, b))
    decreases |a|
  {
    hide BitStep, Xor;
    if a != [] {
      BitStepLinear(x, y, a[0], b[0]);
      assert Differ(a, b)[1..] == Differ(a[1..], b[1..]);
      SerialLinear(BitStep(x, a[0]), BitStep(y, b[0]), a[1..], b[1..]);
    }
  }

  // ---------- a short error cannot shift out to nothing ----------

  predicate AllFalse(bits: seq<bool>) {
    forall i :: 0 <= i < |bits| ==> !bits[i]
  }

  lemma BitStepZero(c: bv32)
    ensures BitStep(c, false) == 0 <==> c == 0
  {
    assert c ^ 0 == c;
  }

  /** Zero bits leave a zero register at zero, and no other one. */
  lemma {:induction false} SerialZeros(c: bv32, bits: seq<bool>)
    requires AllFalse(bits)
    ensures Serial(c, bits) == 0 <==> c == 0
    decreases |bits|
  {
    hide BitStep;
    if bits != [] {
      BitStepZero(c);
      SerialZeros(BitStep(c, bits[0]), bits[1..]);
    }
  }

  /** s has a one at or above position n. */
  predicate High(s: bv32, n: nat)
    decreases n
  {
    if n == 0 then s != 0 else High(s >> 1, n - 1)
  }

  lemma {:induction false} HighOfBit(s: bv32, t: bv32, n: nat)
    requires s >= t && PowerOfTwo(t, n)
    ensures High(s, n)
    decreases n
  {
    if n > 0 {
      HalvesOrdered(s, t);
      HighOfBit(s >> 1, t >> 1, n - 1);
    }
  }

  lemma HalvesOrdered(s: bv32, t: bv32)
    requires s >= t
    ensures s >> 1 >= t >> 1
  {}

  predicate PowerOfTwo(t: bv32, n: nat)
    decreases n
  {
    if n == 0 then t == 1 as bv32 else PowerOfTwo(t >> 1, n - 1)
  }

  function Half(t: bv32): bv32 {
    t >> 1
  }

  lemma PowerOfTwoHalf(t: bv32, n: nat)
    requires PowerOfTwo(Half(t), n)
    ensures PowerOfTwo(t, n + 1)
  {}

  lemma EightHalves(t: bv32)
    ensures Half(Half(Half(Half(Half(Half(Half(Half(t)))))))) == t >> 8
  {}

  lemma PowerOfTwoByte(t: bv32, u: bv32, n: nat)
    requires PowerOfTwo(u, n) && t >> 8 == u
    ensures PowerOfTwo(t, n + 8)
  {
    EightHalves(t);
    hide PowerOfTwo, Half;
    var t1 := Half(t); var t2 := Half(t1); var t3 := Half(t2); var t4 := Half(t3);
    var t5 := Half(t4); var t6 := Half(t5); var t7 := Half(t6);
    PowerOfTwoHalf(t7, n); PowerOfTwoHalf(t6, n + 1); PowerOfTwoHalf(t5, n + 2);
    PowerOfTwoHalf(t4, n + 3); PowerOfTwoHalf(t3, n + 4); PowerOfTwoHalf(t2, n + 5);
    PowerOfTwoHalf(t1, n + 6); PowerOfTwoHalf(t, n + 7);
  }

  lemma TopBitPower()
    ensures PowerOfTwo(0x8000_0000, 31)
  {
    assert PowerOfTwo(0x80, 7);
    PowerOfTwoByte(0x8000, 0x80, 7);
    PowerOfTwoByte(0x80_0000, 0x8000, 15);
    PowerOfTwoByte(0x8000_0000, 0x80_0000, 23);
  }

  lemma {:induction false} HighLower(s: bv32, n: nat)
    requires n > 0 && High(s, n)
    ensures High(s, n - 1)
    decreases n
  {
    if n > 1 { HighLower(s >> 1, n - 1); }
  }

  lemma {:induction false} HighNonzero(s: bv32, n: nat)
    requires High(s, n)
    ensures s != 0
    decreases n
  {
    if n > 0 { HighLower(s, n); HighNonzero(s, n - 1); }
  }

  lemma TopBitIsHigh(s: bv32, n: nat)
    requires s >= 0x8000_0000 && n <= 31
    ensures High(s, n)
    decreases 31 - n
  {
    if n == 31 {
      TopBitPower();
      HighOfBit(s, 0x8000_0000, 31);
    } else {
      TopBitIsHigh(s, n + 1);
      HighLower(s, n + 1);
    }
  }

  lemma LowFlip(s: bv32, bit: bool)
    ensures Xor(s, if bit then 1 as bv32 else 0 as bv32) >> 1 == s >> 1
  {
    if bit {
      assert (s ^ 1) >> 1 == s >> 1;
    } else {
      assert (s ^ 0) >> 1 == s >> 1;
    }
  }

  lemma FoldSetsTop(x: bv32)
    ensures (x >> 1) ^ POLY >= 0x8000_0000
  {}

  /** A step either folds the polynomial in at the top, or is the plain halving. */
  lemma StepTopOrHalf(s: bv32, bit: bool)
    ensures BitStep(s, bit) >= 0x8000_0000 || BitStep(s, bit) == s >> 1
  {
    var x := Xor(s, if bit then 1 as bv32 else 0 as bv32);
    LowFlip(s, bit);
    if Odd(x) { FoldSetsTop(x); }
  }

  lemma {:induction false} HighSurvives(s: bv32, n: nat, bits: seq<bool>)
    requires |bits| <= n <= 31 && High(s, n)
    ensures Serial(s, bits) != 0
    decreases |bits|
  {
    hide BitStep;
    if bits == [] {
      HighNonzero(s, n);
    } else {
      StepTopOrHalf(s, bits[0]);
      if BitStep(s, bits[0]) >= 0x8000_0000 { TopBitIsHigh(BitStep(s, bits[0]), n - 1); }
      HighSurvives(BitStep(s, bits[0]), n - 1, bits[1..]);
    }
  }

  /** An error confined to 32 bits, in a register that had none, is still there at the end of them. */
  lemma {:induction false} WindowSurvives(bits: seq<bool>)
    requires |bits| <= 32 && !AllFalse(bits)
    ensures Serial(0, bits) != 0
    decreases |bits|
  {
    hide BitStep;
    if bits[0] {
      FirstBit();
      TopBitIsHigh(BitStep(0, true), 31);
      HighSurvives(BitStep(0, true), 31, bits[1..]);
    } else {
      BitStepZero(0);
      WindowSurvives(bits[1..]);
    }
  }

  lemma FirstBit()
    ensures BitStep(0, true) == POLY
  {}

  // ---------- the guarantee ----------

  /** a and b are the same outside the 32 bits from position i. */
  predicate WithinWindow(a: seq<bool>, b: seq<bool>, i: nat) {
    |a| == |b| && forall k :: 0 <= k < |a| && !(i <= k < i + 32) ==> a[k] == b[k]
  }

  /** Two streams that differ, and only within 32 consecutive bits, leave different registers. */
  lemma BurstDetected(c: bv32, a: seq<bool>, b: seq<bool>, i: nat)
    requires WithinWindow(a, b, i) && a != b
    ensures Serial(c, a) != Serial(c, b)
  {
    hide BitStep, Xor;
    var e := Differ(a, b);
    var k :| 0 <= k < |a| && a[k] != b[k];
    assert e[k];
    WindowErrorShows(e, i, k);
    SerialLinear(c, c, a, b);
    XorLaws(c, 0, 0);
    XorLaws(Serial(c, a), Serial(c, b), 0);
  }

  lemma WindowErrorShows(e: seq<bool>, i: nat, k: nat)
    requires i <= k < i + 32 && k < |e| && e[k]
    requires forall k :: 0 <= k < |e| && !(i <= k < i + 32) ==> !e[k]
    ensures Serial(0, e) != 0
  {
    hide BitStep;
    var j := if i + 32 <= |e| then i + 32 else |e|;
    var pre, win, post := e[..i], e[i..j], e[j..];
    assert e == pre + (win + post);
    assert win[k - i];
    SerialZeros(0, pre);
    WindowSurvives(win);
    SerialAppend(0, pre, win + post);
    SerialAppend(0, win, post);
    SerialZeros(Serial(0, win), post);
  }
}
