/**
 cal_capture_load of src/cal_capture.c: count a capture's IMU records, then average them in
 blocks into at most the number of samples asked for, skipping a settling window.  Readings
 are reals here; `mono` is the reader's 64-bit clock.
 */
module CaptureLoad {
  import opened FusionMath

  const ANALYZE_MAX := 0x40_0000
  const U64: nat := 0x1_0000_0000_0000_0000

  datatype Reading = Reading(gyro: V3, accel: V3, temp: real)

  /** What the reader delivers: IMU records and others. */
  datatype Rec = ImuRec(mono: nat, reading: Reading) | OtherRec

  const NOTHING := Reading(ORIGIN, ORIGIN, 0.0)

  function AddReading(a: Reading, b: Reading): Reading {
    Reading(Plus(a.gyro, b.gyro), Plus(a.accel, b.accel), a.temp + b.temp)
  }

  function ScaleReading(k: real, a: Reading): Reading {
    Reading(Times(k, a.gyro), Times(k, a.accel), k * a.temp)
  }

  function DivReading(a: Reading, d: real): Reading
    requires d != 0.0
  {
    Reading(V3(a.gyro.x / d, a.gyro.y / d, a.gyro.z / d),
            V3(a.accel.x / d, a.accel.y / d, a.accel.z / d), a.temp / d)
  }

  function Total(s: seq<Reading>): Reading {
    if s == [] then NOTHING else AddReading(Total(s[..|s| - 1]), s[|s| - 1])
  }

  lemma {:induction false} TotalAppend(a: seq<Reading>, b: seq<Reading>)
    ensures Total(a + b) == AddReading(Total(a), Total(b))
    decreases |b|
  {
    if b == [] {
      assert a + b == a;
    } else {
      var front := b[..|b| - 1];
      assert (a + b)[..|a + b| - 1] == a + front;
      TotalAppend(a, front);
    }
  }

  // ---------- passes ----------

  function ImuRecs(recs: seq<Rec>): (r: seq<Rec>)
    ensures forall k :: 0 <= k < |r| ==> r[k].ImuRec?
  {
    if recs == [] then []
    else ImuRecs(recs[..|recs| - 1]) + if recs[|recs| - 1].ImuRec? then [recs[|recs| - 1]] else []
  }

  /** Elapsed nanoseconds, in the 64 bits the source subtracts in. */
  function Elapsed(mono: nat, first: nat): nat {
    (mono + U64 - first % U64) % U64
  }

  /** The readings of a pass once the settling window is over, in order. */
  function Settled(recs: seq<Rec>, first: nat, settleNs: nat): seq<Reading> {
    if recs == [] then []
    else
      var r := recs[|recs| - 1];
      Settled(recs[..|recs| - 1], first, settleNs)
      + if r.ImuRec? && Elapsed(r.mono, first) >= settleNs then [r.reading] else []
  }

  /** How many IMU records of a pass fall in the settling window. */
  function Skipped(recs: seq<Rec>, first: nat, settleNs: nat): nat {
    if recs == [] then 0
    else
      var r := recs[|recs| - 1];
      Skipped(recs[..|recs| - 1], first, settleNs) + if r.ImuRec? && Elapsed(r.mono, first) < settleNs then 1 else 0
  }

  lemma SkippedGrows(recs: seq<Rec>, first: nat, settleNs: nat, i: nat)
    requires i < |recs|
    ensures Skipped(recs[..i + 1], first, settleNs)
         == Skipped(recs[..i], first, settleNs) + if recs[i].ImuRec? && Elapsed(recs[i].mono, first) < settleNs then 1 else 0
  {
    assert recs[..i + 1][..i] == recs[..i];
  }

  /** Every IMU record is skipped or settled, never both. */
  lemma {:induction false} SkippedOrSettled(recs: seq<Rec>, first: nat, settleNs: nat)
    ensures Skipped(recs, first, settleNs) + |Settled(recs, first, settleNs)| == |ImuRecs(recs)|
    decreases |recs|
  {
    if recs != [] { SkippedOrSettled(recs[..|recs| - 1], first, settleNs); }
  }

  /** The pass stops after k records: at the end, or where the blocks of d fill n outputs. */
  predicate StopsAt(recs: seq<Rec>, first: nat, settleNs: nat, d: nat, n: nat, k: nat) {
    k <= |recs| && (k == |recs| || |Settled(recs[..k], first, settleNs)| == n * d)
  }

  datatype Stats = Stats(count: nat, span: real, fsRaw: real, fsOut: real, decim: nat, nSkip: nat, nOut: nat)

  /** nSkip counts the records skipped until the pass stops. */
  ghost predicate SkippedBefore(recs: seq<Rec>, first: nat, settleNs: nat, d: nat, n: nat, nSkip: nat) {
    exists k: nat :: StopsAt(recs, first, settleNs, d, n, k) && nSkip == Skipped(recs[..k], first, settleNs)
  }

  /** The time from the first IMU record to the last, and the rates before and after decimation. */
  predicate Measured(imu: seq<Rec>, st: Stats)
    requires |imu| > 0 && forall k :: 0 <= k < |imu| ==> imu[k].ImuRec?
  {
    && st.span == (imu[|imu| - 1].mono - imu[0].mono) as real * 0.000000001 && st.span > 0.0
    && st.fsRaw * st.span == (|imu| - 1) as real
    && st.fsOut * st.decim as real == st.fsRaw
  }

  function Decimation(count: nat, most: nat): (d: nat)
    requires most > 0
    ensures d > 0
  {
    count / most + 1
  }

  /** The whole blocks of d there are in count. */
  function Blocks(count: nat, d: nat): nat
    requires d > 0
  {
    count / d
  }

  /** The outputs are the block averages of the settled readings, as many as the decimation leaves room for, and the
      statistics say what was skipped and delivered. */
  ghost predicate LoadedAs(recs: seq<Rec>, settleNs: nat, most: nat, st: Stats, outputs: seq<Reading>) {
    var imu := ImuRecs(recs);
    && most > 0 && |imu| > 0 && st.count == |imu| && st.decim == Decimation(st.count, most)
    && |outputs| == st.nOut <= most
    && Decimated(Settled(recs, imu[0].mono, settleNs), st.decim, outputs, |outputs| == Blocks(st.count, st.decim))
    && SkippedBefore(recs, imu[0].mono, settleNs, st.decim, Blocks(st.count, st.decim), st.nSkip)
  }

  datatype LoadResult = Loaded(stats: Stats) | TooShort(count: nat) | Corrupt

  /** Pass 1. */
  method CountPass(recs: seq<Rec>) returns (count: nat, first: nat, last: nat)
    ensures count == |ImuRecs(recs)|
    ensures count > 0 ==> first == ImuRecs(recs)[0].mono && last == ImuRecs(recs)[count - 1].mono
  {
    count, first, last := 0, 0, 0;
    assert recs[..0] == [];
    for i := 0 to |recs|
      invariant count == |ImuRecs(recs[..i])|
      invariant count > 0 ==> first == ImuRecs(recs[..i])[0].mono && last == ImuRecs(recs[..i])[count - 1].mono
    {
      assert recs[..i + 1][..i] == recs[..i];
      if recs[i].ImuRec? {
        if count == 0 { first := recs[i].mono; }
        last := recs[i].mono;
        count := count + 1;
      }
    }
    assert recs[..|recs|] == recs;
  }

  // ---------- blocks ----------

  /** The j-th whole block of d readings. */
  function Block(w: seq<Reading>, d: nat, j: nat): seq<Reading>
    requires d > 0 && (j + 1) * d <= |w|
  {
    BlockBounds(j, d);
    w[j * d..(j + 1) * d]
  }

  lemma BlockBounds(j: nat, d: nat)
    ensures 0 <= j * d <= (j + 1) * d == j * d + d
  {}

  /** The j-th output: the mean of the j-th block. */
  function Average(w: seq<Reading>, d: nat, j: nat): Reading
    requires d > 0 && (j + 1) * d <= |w|
  {
    DivReading(Total(Block(w, d, j)), d as real)
  }

  /** The first k outputs. */
  function Averages(w: seq<Reading>, d: nat, k: nat): (out: seq<Reading>)
    requires d > 0 && k * d <= |w|
    ensures |out| == k
  {
    if k == 0 then []
    else
      BlockBounds(k - 1, d);
      Averages(w, d, k - 1) + [Average(w, d, k - 1)]
  }

  lemma DivThenScale(a: Reading, d: real)
    requires d != 0.0
    ensures ScaleReading(d, DivReading(a, d)) == a
  {}

  lemma ScaleAdds(d: real, a: Reading, b: Reading)
    ensures ScaleReading(d, AddReading(a, b)) == AddReading(ScaleReading(d, a), ScaleReading(d, b))
    ensures ScaleReading(d, NOTHING) == NOTHING
  {
    ScaleNothing(d);
    hide Times, Plus;
    TimesAdds(d, a.gyro, b.gyro);
    TimesAdds(d, a.accel, b.accel);
    Distributes(d, a.temp, b.temp);
  }

  lemma ScaleNothing(d: real)
    ensures ScaleReading(d, NOTHING) == NOTHING
  {}

  lemma TimesAdds(d: real, a: V3, b: V3)
    ensures Times(d, Plus(a, b)) == Plus(Times(d, a), Times(d, b))
  {
    Distributes(d, a.x, b.x);
    Distributes(d, a.y, b.y);
    Distributes(d, a.z, b.z);
  }

  lemma Distributes(d: real, x: real, y: real)
    ensures d * (x + y) == d * x + d * y
  {}

  /** At every block boundary the outputs, each standing for d samples, add up to the samples themselves:
      decimation keeps the integral. */
  lemma {:induction false} IntegralKept(w: seq<Reading>, d: nat, k: nat)
    requires d > 0 && k * d <= |w|
    ensures ScaleReading(d as real, Total(Averages(w, d, k))) == Total(w[..k * d])
    decreases k
  {
    hide ScaleReading, DivReading, AddReading;
    if k == 0 {
      ScaleAdds(d as real, NOTHING, NOTHING);
      assert w[..0] == [];
    } else {
      BlockBounds(k - 1, d);
      IntegralKept(w, d, k - 1);
      var front := Averages(w, d, k - 1);
      var last := Average(w, d, k - 1);
      assert (front + [last])[..k - 1] == front;
      ScaleAdds(d as real, Total(front), last);
      DivThenScale(Total(Block(w, d, k - 1)), d as real);
      assert w[..k * d] == w[..(k - 1) * d] + Block(w, d, k - 1);
      TotalAppend(w[..(k - 1) * d], Block(w, d, k - 1));
    }
  }

  lemma SettledGrows(recs: seq<Rec>, first: nat, settleNs: nat, i: nat)
    requires i < |recs|
    ensures Settled(recs[..i + 1], first, settleNs)
         == Settled(recs[..i], first, settleNs)
            + (if recs[i].ImuRec? && Elapsed(recs[i].mono, first) >= settleNs then [recs[i].reading] else [])
  {
    assert recs[..i + 1][..i] == recs[..i];
  }

  lemma {:induction false} SettledPrefix(recs: seq<Rec>, first: nat, settleNs: nat, i: nat)
    requires i <= |recs|
    ensures Settled(recs[..i], first, settleNs) <= Settled(recs, first, settleNs)
    decreases |recs| - i
  {
    if i < |recs| {
      SettledGrows(recs, first, settleNs, i);
      SettledPrefix(recs, first, settleNs, i + 1);
    } else {
      assert recs[..i] == recs;
    }
  }

  /** The accumulators between records: k whole blocks out, and the total of the readings since. */
  ghost predicate Between(w: seq<Reading>, d: nat, k: nat, inBlock: nat, acc: Reading, out: seq<Reading>) {
    d > 0 && inBlock < d && |w| == k * d + inBlock && k * d <= |w| && acc == Total(w[k * d..]) && out == Averages(w, d, k)
  }

  lemma AveragesPrefix(w: seq<Reading>, v: seq<Reading>, d: nat, k: nat)
    requires d > 0 && k * d <= |w| && w <= v
    ensures Averages(w, d, k) == Averages(v, d, k)
    decreases k
  {
    hide Total, DivReading;
    if k > 0 {
      BlockBounds(k - 1, d);
      AveragesPrefix(w, v, d, k - 1);
      BlockSame(w, v, d, k - 1);
    }
  }

  lemma BlockSame(w: seq<Reading>, v: seq<Reading>, d: nat, j: nat)
    requires d > 0 && (j + 1) * d <= |w| && w <= v
    ensures Average(w, d, j) == Average(v, d, j)
  {
    hide Total, DivReading;
    BlockBounds(j, d);
    PrefixSlice(w, v, j * d, (j + 1) * d);
  }

  lemma PrefixSlice(w: seq<Reading>, v: seq<Reading>, a: nat, b: nat)
    requires a <= b <= |w| && w <= v
    ensures w[a..b] == v[a..b]
  {}

  /** One more reading that does not fill the block. */
  lemma ReadingAdded(w: seq<Reading>, d: nat, k: nat, inBlock: nat, acc: Reading, out: seq<Reading>, r: Reading)
    requires Between(w, d, k, inBlock, acc, out) && inBlock + 1 < d
    ensures Between(w + [r], d, k, inBlock + 1, AddReading(acc, r), out)
  {
    hide AddReading, Averages;
    AveragesPrefix(w, w + [r], d, k);
    assert (w + [r])[k * d..] == w[k * d..] + [r];
    TotalOne(w[k * d..], r);
  }

  lemma TotalOne(w: seq<Reading>, r: Reading)
    ensures Total(w + [r]) == AddReading(Total(w), r)
  {
    hide AddReading;
    assert (w + [r])[..|w|] == w;
  }

  /** The reading that fills it. */
  lemma BlockFilled(w: seq<Reading>, d: nat, k: nat, inBlock: nat, acc: Reading, out: seq<Reading>, r: Reading)
    requires Between(w, d, k, inBlock, acc, out) && inBlock + 1 == d
    ensures Between(w + [r], d, k + 1, 0, NOTHING, out + [DivReading(AddReading(acc, r), d as real)])
  {
    var v := w + [r];
    BlockBounds(k, d);
    assert |v| == (k + 1) * d;
    assert v[k * d..] == w[k * d..] + [r];
    assert v[k * d..(k + 1) * d] == v[k * d..];
    assert v[(k + 1) * d..] == [];
    hide AddReading, DivReading;
    AveragesPrefix(w, v, d, k);
    TotalOne(w[k * d..], r);
    LastBlock(v, d, k, AddReading(acc, r), out);
  }

  lemma LastBlock(v: seq<Reading>, d: nat, k: nat, acc: Reading, out: seq<Reading>)
    requires d > 0 && |v| == (k + 1) * d && k * d <= |v| && acc == Total(v[k * d..]) && out == Averages(v, d, k)
    ensures out + [DivReading(acc, d as real)] == Averages(v, d, k + 1)
  {
    hide DivReading, Total;
    BlockBounds(k, d);
    assert Block(v, d, k) == v[k * d..];
  }

  /** The outputs are the averages of the whole blocks of w: all of them, unless the arrays filled first. */
  ghost predicate Decimated(w: seq<Reading>, d: nat, outputs: seq<Reading>, full: bool) {
    && d > 0 && |outputs| * d <= |w|
    && outputs == Averages(w, d, |outputs|)
    && (full || |w| < (|outputs| + 1) * d)
  }

  /** Pass 2: block averages of what is past the settling window, until the arrays are full. */
  method AveragePass(recs: seq<Rec>, first: nat, settleNs: nat, decim: nat, n: nat) returns (buf: array<Reading>, out: nat, nSkip: nat)
    requires decim > 0
    ensures buf.Length == n && out <= n
    ensures Decimated(Settled(recs, first, settleNs), decim, buf[..out], out == n)
    ensures SkippedBefore(recs, first, settleNs, decim, n, nSkip)
  {
    hide Settled, Skipped, Elapsed, AddReading, DivReading, Averages, Between;
    buf := new Reading[n](i => NOTHING);
    out, nSkip := 0, 0;
    var inBlock, acc := 0, NOTHING;
    ghost var w := Settled(recs[..0], first, settleNs);
    var i := 0;
    Empty(recs, first, settleNs, decim, buf[..0]);
    FirstStop(recs, first, settleNs, decim, n);
    while i < |recs| && out < n
      invariant 0 <= i <= |recs| && out <= n && w == Settled(recs[..i], first, settleNs)
      invariant Between(w, decim, out, inBlock, acc, buf[..out])
      invariant nSkip == Skipped(recs[..i], first, settleNs) && (out == n ==> StopsAt(recs, first, settleNs, decim, n, i))
      decreases |recs| - i
    {
      SettledGrows(recs, first, settleNs, i);
      SkippedGrows(recs, first, settleNs, i);
      match recs[i] {
        case OtherRec =>
          assert w + [] == w;
        case ImuRec(mono, reading) =>
          if Elapsed(mono, first) < settleNs {
            nSkip := nSkip + 1;
            assert w + [] == w;
          } else {
            assert inBlock < decim by { BetweenBound(w, decim, out, inBlock, acc, buf[..out]); }
            if inBlock + 1 == decim {
              BlockFilled(w, decim, out, inBlock, acc, buf[..out], reading);
              acc := AddReading(acc, reading);
              buf[out] := DivReading(acc, decim as real);
              assert buf[..out + 1] == buf[..out] + [DivReading(acc, decim as real)];
              acc, inBlock, out := NOTHING, 0, out + 1;
            } else {
              ReadingAdded(w, decim, out, inBlock, acc, buf[..out], reading);
              acc := AddReading(acc, reading);
              inBlock := inBlock + 1;
            }
            w := w + [reading];
          }
      }
      i := i + 1;
      if out == n { FullStop(recs, first, settleNs, w, decim, out, inBlock, acc, buf[..out], i); }
    }
    assert StopsAt(recs, first, settleNs, decim, n, i);
    SettledPrefix(recs, first, settleNs, i);
    assert recs[..|recs|] == recs;
    Finish(w, Settled(recs, first, settleNs), decim, out, inBlock, acc, buf[..out], out == n);
  }

  lemma FirstStop(recs: seq<Rec>, first: nat, settleNs: nat, d: nat, n: nat)
    ensures Skipped(recs[..0], first, settleNs) == 0
    ensures n == 0 ==> StopsAt(recs, first, settleNs, d, n, 0)
  {}

  lemma FullStop(recs: seq<Rec>, first: nat, settleNs: nat, w: seq<Reading>, d: nat, k: nat, inBlock: nat,
                 acc: Reading, out: seq<Reading>, i: nat)
    requires i <= |recs| && w == Settled(recs[..i], first, settleNs) && inBlock == 0
    requires Between(w, d, k, inBlock, acc, out)
    ensures StopsAt(recs, first, settleNs, d, k, i)
  {
    hide Settled, Averages, Total;
  }

  lemma Empty(recs: seq<Rec>, first: nat, settleNs: nat, d: nat, out: seq<Reading>)
    requires d > 0 && out == []
    ensures Between(Settled(recs[..0], first, settleNs), d, 0, 0, NOTHING, out)
  {}

  lemma BetweenBound(w: seq<Reading>, d: nat, k: nat, inBlock: nat, acc: Reading, out: seq<Reading>)
    requires Between(w, d, k, inBlock, acc, out)
    ensures inBlock < d
  {}

  lemma Finish(w: seq<Reading>, v: seq<Reading>, d: nat, k: nat, inBlock: nat, acc: Reading, out: seq<Reading>, full: bool)
    requires Between(w, d, k, inBlock, acc, out) && w <= v && (full || w == v)
    ensures Decimated(v, d, out, full)
  {
    hide Averages;
    AveragesPrefix(w, v, d, k);
    BlockBounds(k, d);
  }

  lemma BlocksFit(count: nat, most: nat)
    requires most > 0
    ensures Blocks(count, Decimation(count, most)) <= most
  {
    var q, decim := count / most, Decimation(count, most);
    var n := Blocks(count, decim);
    assert count == most * q + count % most;
    assert count < most * decim by { assert most * decim == most * q + most; }
    if n > most {
      assert n * decim <= count;
      Larger(n, most, decim);
    }
  }

  lemma Larger(x: nat, y: nat, d: nat)
    requires x > y
    ensures x * d >= y * d
  {}

  /** Nanoseconds as seconds. */
  function Seconds(ns: nat): real {
    ns as real * 0.000000001
  }

  lemma SecondsPositive(ns: nat)
    requires ns > 0
    ensures Seconds(ns) > 0.0
  {}

  function Rate(n: real, span: real): real
    requires span > 0.0
  {
    n / span
  }

  lemma RateTimesSpan(n: real, span: real)
    requires span > 0.0
    ensures Rate(n, span) * span == n
  {}

  lemma RatesMeasured(imu: seq<Rec>, st: Stats)
    requires |imu| > 0 && forall k :: 0 <= k < |imu| ==> imu[k].ImuRec?
    requires imu[|imu| - 1].mono > imu[0].mono && st.span == Seconds(imu[|imu| - 1].mono - imu[0].mono)
    requires st.decim > 0 && st.span > 0.0
    requires st.fsRaw == Rate((|imu| - 1) as real, st.span) && st.fsOut == Rate(st.fsRaw, st.decim as real)
    ensures Measured(imu, st)
  {
    RateTimesSpan((|imu| - 1) as real, st.span);
    RateTimesSpan(st.fsRaw, st.decim as real);
    hide Rate;
  }

  lemma LoadedMeans(recs: seq<Rec>, settleNs: nat, most: nat, st: Stats, outputs: seq<Reading>)
    requires most > 0 && ImuRecs(recs) != [] && st.count == |ImuRecs(recs)| && st.decim == Decimation(st.count, most)
    requires |outputs| == st.nOut <= Blocks(st.count, st.decim)
    requires Decimated(Settled(recs, ImuRecs(recs)[0].mono, settleNs), st.decim, outputs, |outputs| == Blocks(st.count, st.decim))
    requires SkippedBefore(recs, ImuRecs(recs)[0].mono, settleNs, st.decim, Blocks(st.count, st.decim), st.nSkip)
    ensures LoadedAs(recs, settleNs, most, st, outputs)
  {
    BlocksFit(st.count, most);
    hide Blocks, Decimation, ImuRecs, Settled, Decimated, SkippedBefore;
  }

  /** cal_capture_load, given what the reader delivers and whether it ended in a CRC error. */
  method Load(recs: seq<Rec>, crcError: bool, settleNs: nat, maxSamples: nat) returns (r: LoadResult, outputs: seq<Reading>)
    ensures r.Corrupt? <==> crcError
    ensures r.TooShort? ==> outputs == [] && r.count == |ImuRecs(recs)|
    ensures r.TooShort? <==> !crcError && (|ImuRecs(recs)| < 16 || ImuRecs(recs)[|ImuRecs(recs)| - 1].mono <= ImuRecs(recs)[0].mono)
    ensures r.Loaded? ==> LoadedAs(recs, settleNs, if maxSamples == 0 then ANALYZE_MAX else maxSamples, r.stats, outputs)
    ensures r.Loaded? ==> |ImuRecs(recs)| >= 16 && Measured(ImuRecs(recs), r.stats)
  {
    hide Blocks, Decimation, ImuRecs, Settled, Decimated, SkippedBefore, LoadedAs, Measured, Seconds, Rate;
    var most := if maxSamples == 0 then ANALYZE_MAX else maxSamples;
    var count, first, last := CountPass(recs);
    outputs := [];
    if crcError { return Corrupt, []; }
    if count < 16 || last <= first { return TooShort(count), []; }
    var decim := Decimation(count, most);
    var n := Blocks(count, decim);
    var buf, out, nSkip := AveragePass(recs, first, settleNs, decim, n);
    outputs := buf[..out];
    var span := Seconds(last - first);
    SecondsPositive(last - first);
    var fsRaw := Rate((count - 1) as real, span);
    var st := Stats(count, span, fsRaw, Rate(fsRaw, decim as real), decim, nSkip, out);
    LoadedMeans(recs, settleNs, most, st, outputs);
    RatesMeasured(ImuRecs(recs), st);
    r := Loaded(st);
  }
}
