/**
 cal_mag_keep of src/cal_math.c: a swing of any length kept evenly spread in a fixed buffer.
 When the buffer fills, every other kept sample goes, in place, and the spacing doubles.
 */
module SampleKeep {

  predicate PowerOfTwo(k: nat) {
    k == 1 || (k > 1 && k % 2 == 0 && PowerOfTwo(k / 2))
  }

  /** How many of `seen` samples lie at 0, stride, 2·stride, … */
  function Kept(seen: nat, stride: nat): nat
    requires stride > 0
  {
    (seen + stride - 1) / stride
  }

  /** q is how many multiples of stride lie below seen. */
  lemma KeptIs(seen: nat, stride: nat, q: nat)
    requires stride > 0 && (q == 0 ==> seen == 0) && (q > 0 ==> (q - 1) * stride < seen <= q * stride)
    ensures Kept(seen, stride) == q
  {
    var a := seen + stride - 1;
    if q > 0 {
      assert (q - 1) * stride == q * stride - stride;
      Quotient(a, stride, q);
    } else {
      Quotient(a, stride, 0);
    }
  }

  lemma Quotient(a: nat, b: nat, q: nat)
    requires b > 0 && q * b <= a < q * b + b
    ensures a / b == q && a % b == a - q * b
  {
    var r := a - q * b;
    var p := a / b;
    assert a == p * b + a % b;
    if p < q { Times(p + 1, q, b); } else if p > q { Times(q + 1, p, b); }
  }

  lemma Times(x: nat, y: nat, b: nat)
    requires x <= y
    ensures x * b <= y * b && (x + 1) * b == x * b + b
  {}

  /** n samples kept out of `seen`, the next due at n·stride. */
  predicate Spaced(n: nat, seen: nat, stride: nat) {
    (n == 0 ==> seen == 0) && (n > 0 ==> (n - 1) * stride < seen <= n * stride)
  }

  predicate Multiple(i: nat, stride: nat)
    requires stride > 0
  {
    i % stride == 0
  }

  /** The samples at 0, stride, 2·stride, … of a swing. */
  predicate EveryStrideth<T(==)>(kept: seq<T>, offered: seq<T>, stride: nat) {
    forall k :: 0 <= k < |kept| ==> k * stride < |offered| && kept[k] == offered[k * stride]
  }

  class Keeper<T(==)> {
    const s: array<T>
    var n: nat
    var seen: nat
    var stride: nat
    /** Every sample offered so far. */
    ghost var offered: seq<T>

    ghost predicate Valid()
      reads this, s
    {
      && s.Length >= 2 && s.Length % 2 == 0
      && n <= s.Length && seen == |offered|
      && PowerOfTwo(stride) && stride > 0
      && Spaced(n, seen, stride)
      && EveryStrideth(s[..n], offered, stride)
      && (stride > 1 ==> n > s.Length / 2)
    }

    /** cal_mag_keep_init. */
    constructor (buf: array<T>)
      requires buf.Length >= 2 && buf.Length % 2 == 0
      ensures Valid() && s == buf && offered == [] && stride == 1
    {
      s := buf;
      n, seen, stride, offered := 0, 0, 1, [];
    }

    /** Every other kept sample goes: safe in place, since what is read is never behind what is written. */
    method Compact()
      requires n == s.Length && s.Length % 2 == 0
      modifies s, this`n, this`stride
      ensures n == s.Length / 2 && stride == 2 * old(stride)
      ensures forall j :: 0 <= j < s.Length / 2 ==> s[j] == old(s[2 * j])
    {
      for j := 0 to s.Length / 2
        modifies s
        invariant forall k :: 0 <= k < j ==> s[k] == old(s[2 * k])
        invariant forall k :: 2 * j <= k < s.Length ==> s[k] == old(s[k])
        invariant forall k :: j <= k < s.Length / 2 ==> s[2 * k] == old(s[2 * k])
      {
        s[j] := s[2 * j];
      }
      n := s.Length / 2;
      stride := stride * 2;
    }

    /** cal_mag_keep: true when the sample was kept. */
    method Offer(v: T) returns (kept: bool)
      requires Valid()
      modifies this, s
      ensures Valid() && offered == old(offered) + [v]
      ensures kept <==> Multiple(old(seen), stride)
      ensures stride == old(stride) || (stride == 2 * old(stride) && old(n) == s.Length)
    {
      hide Spaced, EveryStrideth, PowerOfTwo, Multiple, At;
      var i := seen;
      seen := seen + 1;
      ghost var was := offered;
      offered := offered + [v];
      if !Multiple(i, stride) {
        NotDue(n, i, stride);
        Longer(s[..n], was, v, stride);
        return false;
      }
      Due(n, i, stride);
      if n == s.Length {
        Compact();
        DoubledSpacing(s[..n], old(s[..n]), was, old(stride));
        Halved(s.Length, old(stride), i);
        if !Multiple(i, stride) { return false; }
      }
      s[n] := v;
      n := n + 1;
      Next(n - 1, i, stride);
      Appended(s[..n - 1], s[..n], was, v, stride, i);
      kept := true;
    }

    /** The samples kept are the ones at 0, stride, 2·stride, …, all of them, and fill more than half the
        buffer once any has been let go. */
    lemma EvenSpread()
      requires Valid()
      ensures n == Kept(seen, stride) <= s.Length
      ensures forall k :: 0 <= k < n ==> k * stride < seen && s[k] == offered[k * stride]
      ensures stride > 1 ==> n > s.Length / 2
    {
      KeptIs(seen, stride, n);
      forall k | 0 <= k < n ensures k * stride < seen && s[k] == offered[k * stride] {
        assert s[k] == s[..n][k];
      }
    }
  }

  /** An index that is not a multiple of the stride leaves the count right. */
  lemma NotDue(n: nat, i: nat, stride: nat)
    requires stride > 0 && !Multiple(i, stride) && Spaced(n, i, stride)
    ensures Spaced(n, i + 1, stride)
  {
    if i == n * stride { Quotient(i, stride, n); }
  }

  /** The i-th sample sits where the n-th kept one belongs. */
  predicate At(n: nat, i: nat, stride: nat) {
    i == n * stride
  }

  /** An index that is a multiple of the stride is the next one wanted. */
  lemma Due(n: nat, i: nat, stride: nat)
    requires stride > 0 && Multiple(i, stride) && Spaced(n, i, stride)
    ensures At(n, i, stride)
  {
    if n > 0 && i < n * stride {
      Times(n - 1, n, stride);
      Quotient(i, stride, n - 1);
    }
  }

  lemma Next(n: nat, i: nat, stride: nat)
    requires stride > 0 && At(n, i, stride)
    ensures Spaced(n + 1, i + 1, stride)
  {
    Times(n, n + 1, stride);
  }

  /** A full buffer of even size divides into the doubled stride. */
  lemma Halved(cap: nat, stride: nat, i: nat)
    requires cap % 2 == 0 && cap >= 2 && stride > 0 && At(cap, i, stride)
    ensures At(cap / 2, i, 2 * stride) && Multiple(i, 2 * stride)
    ensures PowerOfTwo(stride) ==> PowerOfTwo(2 * stride)
  {
    var h := cap / 2;
    assert cap == 2 * h;
    assert h * (2 * stride) == (2 * h) * stride;
    Quotient(cap * stride, 2 * stride, h);
  }

  lemma Longer<T>(kept: seq<T>, offered: seq<T>, v: T, stride: nat)
    requires EveryStrideth(kept, offered, stride)
    ensures EveryStrideth(kept, offered + [v], stride)
  {}

  lemma DoubledSpacing<T>(kept: seq<T>, before: seq<T>, offered: seq<T>, stride: nat)
    requires EveryStrideth(before, offered, stride) && 2 * |kept| <= |before|
    requires forall j :: 0 <= j < |kept| ==> kept[j] == before[2 * j]
    ensures EveryStrideth(kept, offered, 2 * stride)
  {
    forall k | 0 <= k < |kept| ensures k * (2 * stride) < |offered| && kept[k] == offered[k * (2 * stride)] {
      assert k * (2 * stride) == (2 * k) * stride;
      assert before[2 * k] == offered[(2 * k) * stride];
    }
  }

  lemma Appended<T>(before: seq<T>, after: seq<T>, offered: seq<T>, v: T, stride: nat, i: nat)
    requires EveryStrideth(before, offered, stride) && after == before + [v]
    requires At(|before|, i, stride) && i == |offered|
    ensures EveryStrideth(after, offered + [v], stride)
  {
    forall k | 0 <= k < |after| ensures k * stride < |offered + [v]| && after[k] == (offered + [v])[k * stride] {
      if k < |before| { assert before[k] == offered[k * stride]; }
    }
  }
}
