/** Small numbers as bytes, bit by bit: what the source's casts of lengths and divisors do. */
module Bytes {

  function Weight(n: nat): nat
    requires n <= 8
  {
    if n == 0 then 1 else if n == 1 then 2 else if n == 2 then 4 else if n == 3 then 8
    else if n == 4 then 16 else if n == 5 then 32 else if n == 6 then 64 else if n == 7 then 128 else 256
  }

  function BitAt(n: nat): bv8
    requires n < 8
  {
    if n == 0 then 1 as bv8 else if n == 1 then 2 as bv8 else if n == 2 then 4 as bv8 else if n == 3 then 8 as bv8
    else if n == 4 then 16 as bv8 else if n == 5 then 32 as bv8 else if n == 6 then 64 as bv8 else 128 as bv8
  }

  /** The n-bit number k, written from its top bit down. */
  function BitsBelow(k: nat, n: nat): bv8
    requires n <= 8 && k < Weight(n)
  {
    if n == 0 then 0 as bv8
    else if k >= Weight(n - 1) then BitsBelow(k - Weight(n - 1), n - 1) | BitAt(n - 1)
    else BitsBelow(k, n - 1)
  }

  /** `(uint8_t)k` of a number that fits. */
  function ByteOf(k: nat): bv8
    requires k < 256
  {
    BitsBelow(k, 8)
  }

  lemma TopBit(b: bv8, n: nat)
    requires n < 8 && b as nat < Weight(n)
    ensures (b | BitAt(n)) as nat == b as nat + Weight(n)
  {
    if n == 0 { assert b as nat < 1; } else if n == 1 { assert b as nat < 2; }
    else if n == 2 { assert b as nat < 4; } else if n == 3 { assert b as nat < 8; }
    else if n == 4 { assert b as nat < 16; } else if n == 5 { assert b as nat < 32; }
    else if n == 6 { assert b as nat < 64; } else { assert b as nat < 128; }
  }

  lemma FirstWeight()
    ensures Weight(0) == 1
  {}

  lemma WeightDoubles(n: nat)
    requires n < 8
    ensures Weight(n + 1) == 2 * Weight(n)
  {}

  lemma {:induction false} BitsBelowValue(k: nat, n: nat)
    requires n <= 8 && k < Weight(n)
    ensures BitsBelow(k, n) as nat == k
  {
    hide BitAt, Weight;
    if n == 0 {
      FirstWeight();
    } else {
      WeightDoubles(n - 1);
      if k >= Weight(n - 1) {
        BitsBelowValue(k - Weight(n - 1), n - 1);
        TopBit(BitsBelow(k - Weight(n - 1), n - 1), n - 1);
      } else {
        BitsBelowValue(k, n - 1);
      }
    }
  }

  /** A number below 256 survives the cast. */
  lemma ByteValue(k: nat)
    requires k < 256
    ensures ByteOf(k) as nat == k
  {
    BitsBelowValue(k, 8);
  }
}
