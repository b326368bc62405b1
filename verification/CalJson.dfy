/**
 The calibration file (src/cal.c): the text cal_write prints for any subset of the five
 sections, and what cal_load makes of a text.  A calibration holds its numbers as printed;
 the arithmetic guards read their decimal values.
 */
module CalJson {
  import opened JsonScan

  // ---------- the calibration record ----------

  const OFFSET_AT := 0
  const SCALE_AT := 3
  const BIAS_AT := 6
  const HARD_AT := 9
  const SOFT_AT := 12
  const GYRO_DENSITY_AT := 21
  const GYRO_INSTABILITY_AT := 24
  const ACCEL_DENSITY_AT := 27
  const COEFF_AT := 30
  const REF_AT := 33
  const SLOTS := 34

  /** imud_cal_t: its flags, and its 34 floats in the order the struct lays them out. */
  datatype Cal = Cal(accel: bool, gyro: bool, mag: bool, noise: bool, temp: bool, nums: seq<string>)

  /** The identity defaults. */
  function Identity(): (nums: seq<string>)
    ensures |nums| == SLOTS
  {
    ["0", "0", "0", "1", "1", "1", "0", "0", "0", "0", "0", "0",
     "1", "0", "0", "0", "1", "0", "0", "0", "1",
     "0", "0", "0", "0", "0", "0", "0", "0", "0", "0", "0", "0", "0"]
  }

  /** Whether the section that slot i belongs to is present. */
  predicate Has(c: Cal, i: nat) {
    if i < BIAS_AT then c.accel
    else if i < HARD_AT then c.gyro
    else if i < GYRO_DENSITY_AT then c.mag
    else if i < COEFF_AT then c.noise
    else c.temp
  }

  /** Every number of a present section is as printf writes one. */
  predicate Formed(c: Cal) {
    |c.nums| == SLOTS && forall i :: 0 <= i < SLOTS && Has(c, i) ==> Printed(c.nums[i])
  }

  /** What a file can carry: the present sections, and the defaults elsewhere. */
  function Kept(c: Cal): (k: Cal)
    requires |c.nums| == SLOTS
    ensures |k.nums| == SLOTS
  {
    c.(nums := seq(SLOTS, i requires 0 <= i < SLOTS => if Has(c, i) then c.nums[i] else Identity()[i]))
  }

  // ---------- the arithmetic guards ----------

  const FLT_MAX := 340282346638528859811704183484516925440.0

  function DigitsValue(s: string): nat {
    if s == "" then 0
    else DigitsValue(s[..|s| - 1]) * 10 + (if Digit(s[|s| - 1]) then s[|s| - 1] as int - '0' as int else 0)
  }

  function Pow10(n: nat): (r: real)
    ensures r > 0.0
  {
    if n == 0 then 1.0 else 10.0 * Pow10(n - 1)
  }

  function Mantissa(s: string): real {
    var d := DigitRun(s);
    var whole := DigitsValue(s[..d]) as real;
    if d == |s| || s[d] != '.' then whole
    else
      var f := DigitRun(s[d + 1..]);
      whole + DigitsValue(s[d + 1..d + 1 + f]) as real / Pow10(f)
  }

  function Exponent(s: string): int {
    if s == "" || (s[0] != 'e' && s[0] != 'E') then 0
    else
      var k := 1 + SignLen(s[1..]);
      var e: int := DigitsValue(s[k..k + DigitRun(s[k..])]);
      if k == 2 && s[1] == '-' then -e else e
  }

  /** The decimal value of a number's text. */
  function Value(t: string): real {
    var k := SignLen(t);
    var m := MantissaLen(t[k..]);
    var e := Exponent(t[k + m..]);
    var x := Mantissa(t[k..]) * (if e >= 0 then Pow10(e) else 1.0 / Pow10(-e));
    if k == 1 && t[0] == '-' then -x else x
  }

  predicate Fits(x: real) {
    -FLT_MAX <= x <= FLT_MAX
  }

  /** A float as the guards see it: a value in range, or an infinity or NaN.  Each operation is exact and then
      checked for range; what has once left it stays out, as it does in IEEE arithmetic without division. */
  datatype Float = Fin(x: real) | NonFinite

  function Ranged(x: real): Float {
    if Fits(x) then Fin(x) else NonFinite
  }

  function FPlus(a: Float, b: Float): Float {
    if a.Fin? && b.Fin? then Ranged(a.x + b.x) else NonFinite
  }

  function FMinus(a: Float, b: Float): Float {
    if a.Fin? && b.Fin? then Ranged(a.x - b.x) else NonFinite
  }

  function FTimes(a: Float, b: Float): Float {
    if a.Fin? && b.Fin? then Ranged(a.x * b.x) else NonFinite
  }

  function Number(nums: seq<string>, i: nat): Float
    requires i < |nums|
  {
    Ranged(Value(nums[i]))
  }

  /** cal_first_non_finite: no number out of a float's range. */
  predicate AllFinite(c: Cal, gated: bool)
    requires |c.nums| == SLOTS
  {
    forall i :: 0 <= i < SLOTS && (gated ==> Has(c, i)) ==> Number(c.nums, i).Fin?
  }

  /** One row of soft_iron times three offsets, summed from the left. */
  function Corrected(a: Float, b: Float, c: Float, x: Float, y: Float, z: Float): Float {
    FPlus(FPlus(FTimes(a, x), FTimes(b, y)), FTimes(c, z))
  }

  predicate RowFits(nums: seq<string>, row: nat, v: Float)
    requires |nums| == SLOTS && row <= 2
  {
    var at := SOFT_AT + 3 * row;
    Corrected(Number(nums, at), Number(nums, at + 1), Number(nums, at + 2), FMinus(v, Number(nums, HARD_AT)),
              FMinus(v, Number(nums, HARD_AT + 1)), FMinus(v, Number(nums, HARD_AT + 2))).Fin?
  }

  /** The magnetometer correction of a reading v on every axis stays in range. */
  predicate MagFits(nums: seq<string>, v: Float)
    requires |nums| == SLOTS
  {
    forall i: nat :: i < 3 ==> RowFits(nums, i, v)
  }

  predicate AxisFits(nums: seq<string>, i: nat, v: Float)
    requires |nums| == SLOTS && i <= 2
  {
    FTimes(FMinus(v, Number(nums, OFFSET_AT + i)), Number(nums, SCALE_AT + i)).Fin?
  }

  predicate AccelFits(nums: seq<string>, v: Float)
    requires |nums| == SLOTS
  {
    forall i: nat :: i < 3 ==> AxisFits(nums, i, v)
  }

  predicate DriftFits(nums: seq<string>, i: nat, v: Float)
    requires |nums| == SLOTS && i <= 2
  {
    FMinus(v, FTimes(Number(nums, COEFF_AT + i), FMinus(v, Number(nums, REF_AT)))).Fin?
  }

  predicate TempFits(nums: seq<string>, v: Float)
    requires |nums| == SLOTS
  {
    forall i: nat :: i < 3 ==> DriftFits(nums, i, v)
  }

  /** cal_first_overflowing at one probe value. */
  predicate Survives(c: Cal, gated: bool, v: Float)
    requires |c.nums| == SLOTS
  {
    && ((gated ==> c.mag) ==> MagFits(c.nums, v))
    && ((gated ==> c.accel) ==> AccelFits(c.nums, v))
    && ((gated ==> c.temp) ==> TempFits(c.nums, v))
  }

  predicate Usable(c: Cal, gated: bool)
    requires |c.nums| == SLOTS
  {
    AllFinite(c, gated) && Survives(c, gated, Fin(0.0)) && Survives(c, gated, Fin(1000.0)) && Survives(c, gated, Fin(-1000.0))
  }

  lemma DigitValues()
    ensures DigitRun("0") == 1 && DigitRun("1") == 1
    ensures DigitsValue("0") == 0 && DigitsValue("1") == 1
  {
    assert DigitRun("0"[1..]) == 0 && DigitRun("1"[1..]) == 0;
    assert "0"[..0] == "" && "1"[..0] == "";
    assert DigitsValue("") == 0;
  }

  lemma ValueOfDefaults()
    ensures Value("0") == 0.0 && Value("1") == 1.0
  {
    hide DigitRun, DigitsValue;
    DigitValues();
    WholeValue("0", 0);
    WholeValue("1", 1);
  }

  /** One digit alone is a number of that value. */
  lemma WholeValue(t: string, n: nat)
    requires |t| == 1 && DigitRun(t) == 1 && DigitsValue(t) == n && t[0] != '-' && t[0] != '+'
    ensures Value(t) == n as real
  {
    hide DigitRun, DigitsValue;
    assert SignLen(t) == 0;
    assert t[0..] == t && t[..1] == t;
    assert MantissaLen(t) == 1;
    assert t[1..] == "";
    assert Exponent("") == 0 && Pow10(0) == 1.0;
    assert Mantissa(t) == n as real;
  }

  predicate Default(nums: seq<string>, i: nat)
    requires i < |nums| == SLOTS
  {
    nums[i] == Identity()[i]
  }

  predicate Probe(v: Float) {
    v.Fin? && -1000.0 <= v.x <= 1000.0
  }

  lemma ZeroAndOne(v: Float)
    requires Probe(v)
    ensures FMinus(v, Fin(0.0)) == v && FTimes(v, Fin(1.0)) == v && FTimes(Fin(1.0), v) == v
    ensures FTimes(Fin(0.0), v) == Fin(0.0) && FPlus(Fin(0.0), v) == v && FPlus(v, Fin(0.0)) == v
    ensures FPlus(Fin(0.0), Fin(0.0)) == Fin(0.0)
  {}

  lemma DefaultNumber(nums: seq<string>, i: nat)
    requires i < |nums| == SLOTS && Default(nums, i)
    ensures Number(nums, i) == Fin(if SCALE_AT <= i < BIAS_AT || i == SOFT_AT || i == SOFT_AT + 4 || i == SOFT_AT + 8 then 1.0 else 0.0)
  {
    hide Value;
    ValueOfDefaults();
  }

  lemma DefaultMagFits(nums: seq<string>, v: Float)
    requires |nums| == SLOTS && Probe(v)
    requires forall i :: HARD_AT <= i < GYRO_DENSITY_AT ==> Default(nums, i)
    ensures MagFits(nums, v)
  {
    hide Number, FPlus, FTimes, FMinus;
    ZeroAndOne(v);
    forall i | HARD_AT <= i < GYRO_DENSITY_AT
      ensures Number(nums, i) == Fin(if i == SOFT_AT || i == SOFT_AT + 4 || i == SOFT_AT + 8 then 1.0 else 0.0)
    {
      DefaultNumber(nums, i);
    }
    forall row: nat | row < 3 ensures RowFits(nums, row, v) {
      var at := SOFT_AT + 3 * row;
      UnitRow(row, Number(nums, at), Number(nums, at + 1), Number(nums, at + 2), v);
      assert Number(nums, HARD_AT) == Number(nums, HARD_AT + 1) == Number(nums, HARD_AT + 2) == Fin(0.0);
    }
  }

  lemma UnitRow(row: nat, a: Float, b: Float, c: Float, v: Float)
    requires row < 3 && Probe(v)
    requires a == Fin(if row == 0 then 1.0 else 0.0) && b == Fin(if row == 1 then 1.0 else 0.0)
    requires c == Fin(if row == 2 then 1.0 else 0.0)
    ensures Corrected(a, b, c, v, v, v) == v
  {
    hide FPlus, FTimes;
    ZeroAndOne(v);
  }

  lemma DefaultAccelFits(nums: seq<string>, v: Float)
    requires |nums| == SLOTS && Probe(v)
    requires forall i :: 0 <= i < BIAS_AT ==> Default(nums, i)
    ensures AccelFits(nums, v)
  {
    hide Number, FTimes, FMinus;
    ZeroAndOne(v);
    forall i: nat | i < 3 ensures AxisFits(nums, i, v) {
      DefaultNumber(nums, OFFSET_AT + i);
      DefaultNumber(nums, SCALE_AT + i);
    }
  }

  lemma DefaultTempFits(nums: seq<string>, v: Float)
    requires |nums| == SLOTS && Probe(v)
    requires forall i :: COEFF_AT <= i < SLOTS ==> Default(nums, i)
    ensures TempFits(nums, v)
  {
    hide Number, FTimes, FMinus;
    ZeroAndOne(v);
    forall i: nat | i < 3 ensures DriftFits(nums, i, v) {
      DefaultNumber(nums, COEFF_AT + i);
      DefaultNumber(nums, REF_AT);
    }
  }

  lemma SameNumbers(a: seq<string>, b: seq<string>, v: Float)
    requires |a| == |b| == SLOTS
    ensures (forall i :: HARD_AT <= i < GYRO_DENSITY_AT ==> a[i] == b[i]) ==> MagFits(a, v) == MagFits(b, v)
    ensures (forall i :: 0 <= i < BIAS_AT ==> a[i] == b[i]) ==> AccelFits(a, v) == AccelFits(b, v)
    ensures (forall i :: COEFF_AT <= i < SLOTS ==> a[i] == b[i]) ==> TempFits(a, v) == TempFits(b, v)
  {
    hide Number, Corrected, FTimes, FMinus;
    NumberSame(a, b);
    if forall i :: HARD_AT <= i < GYRO_DENSITY_AT ==> a[i] == b[i] {
      forall row: nat | row < 3 ensures RowFits(a, row, v) == RowFits(b, row, v) {}
    }
    if forall i :: 0 <= i < BIAS_AT ==> a[i] == b[i] {
      forall i: nat | i < 3 ensures AxisFits(a, i, v) == AxisFits(b, i, v) {}
    }
    if forall i :: COEFF_AT <= i < SLOTS ==> a[i] == b[i] {
      forall i: nat | i < 3 ensures DriftFits(a, i, v) == DriftFits(b, i, v) {}
    }
  }

  lemma NumberSame(a: seq<string>, b: seq<string>)
    requires |a| == |b|
    ensures forall i :: 0 <= i < |a| && a[i] == b[i] ==> Number(a, i) == Number(b, i)
  {}

  lemma SurvivesAlike(c: Cal, v: Float)
    requires |c.nums| == SLOTS && Probe(v)
    ensures Survives(Kept(c), false, v) <==> Survives(c, true, v)
  {
    hide MagFits, AccelFits, TempFits, Identity;
    var k := Kept(c);
    SameNumbers(k.nums, c.nums, v);
    if !c.mag { DefaultMagFits(k.nums, v); }
    if !c.accel { DefaultAccelFits(k.nums, v); }
    if !c.temp { DefaultTempFits(k.nums, v); }
  }

  lemma KeptAt(c: Cal)
    requires |c.nums| == SLOTS
    ensures forall i :: 0 <= i < SLOTS ==> Kept(c).nums[i] == if Has(c, i) then c.nums[i] else Identity()[i]
  {}

  lemma FiniteAlike(c: Cal)
    requires |c.nums| == SLOTS
    ensures AllFinite(Kept(c), false) <==> AllFinite(c, true)
  {
    hide Number, Kept, Has, Identity;
    var k := Kept(c);
    KeptAt(c);
    forall i | 0 <= i < SLOTS ensures if Has(c, i) then Number(k.nums, i) == Number(c.nums, i) else Number(k.nums, i).Fin? {
      if Has(c, i) {
        assert Number(k.nums, i) == Number(c.nums, i) by { NumberSame(k.nums, c.nums); }
      } else {
        DefaultNumber(k.nums, i);
      }
    }
    if AllFinite(k, false) {
      forall i | 0 <= i < SLOTS && Has(c, i) ensures Number(c.nums, i).Fin? { assert Number(k.nums, i).Fin?; }
    }
    if AllFinite(c, true) {
      forall i | 0 <= i < SLOTS ensures Number(k.nums, i).Fin? {
        if Has(c, i) { assert Number(c.nums, i).Fin?; }
      }
    }
  }

  /** What the writer's guard lets out, the loader's stricter guard lets back in, and nothing else. */
  lemma GuardsAgree(c: Cal)
    requires |c.nums| == SLOTS
    ensures Usable(Kept(c), false) <==> Usable(c, true)
  {
    hide Survives, AllFinite, Kept;
    FiniteAlike(c);
    SurvivesAlike(c, Fin(0.0));
    SurvivesAlike(c, Fin(1000.0));
    SurvivesAlike(c, Fin(-1000.0));
  }

  // ---------- the text cal_write prints ----------

  function Triple(a: string, b: string, c: string): seq<Token> {
    [OpenBracket, Gap(" "), Num(a), Gap(", "), Num(b), Gap(", "), Num(c), Gap(" "), CloseBracket]
  }

  function TripleAt(c: Cal, at: nat): seq<Token>
    requires at + 3 <= |c.nums|
  {
    Triple(c.nums[at], c.nums[at + 1], c.nums[at + 2])
  }

  /** One `"name": [ a, b, c ]` line. */
  function Line(n: Name, pad: string, c: Cal, at: nat, end: string): seq<Token>
    requires at + 3 <= |c.nums|
  {
    [Gap("    ")] + ([Key(n)] + ([Gap(pad)] + (TripleAt(c, at) + [Gap(end)])))
  }

  function Row(c: Cal, at: nat, end: string): seq<Token>
    requires at + 3 <= |c.nums|
  {
    [Gap("      ")] + (TripleAt(c, at) + [Gap(end)])
  }

  /** The nested block of soft_iron, after its name. */
  function SoftBlock(c: Cal): seq<Token>
    requires |c.nums| == SLOTS
  {
    [Gap(" "), OpenBracket, Gap("\n")] + (Row(c, SOFT_AT, ",\n") + (Row(c, SOFT_AT + 3, ",\n")
      + (Row(c, SOFT_AT + 6, "\n") + [Gap("    "), CloseBracket])))
  }

  function SoftLines(c: Cal): seq<Token>
    requires |c.nums| == SLOTS
  {
    [Gap("    ")] + ([Key(SOFT_IRON)] + (SoftBlock(c) + [Gap("\n")]))
  }

  function MagBody(c: Cal): seq<Token>
    requires |c.nums| == SLOTS
  {
    Line(HARD_IRON, " ", c, HARD_AT, ",\n") + SoftLines(c)
  }

  function GyroBody(c: Cal): seq<Token>
    requires |c.nums| == SLOTS
  {
    Line(BIAS, " ", c, BIAS_AT, "\n")
  }

  function AccelBody(c: Cal): seq<Token>
    requires |c.nums| == SLOTS
  {
    Line(OFFSET, " ", c, OFFSET_AT, ",\n") + Line(SCALE, "  ", c, SCALE_AT, "\n")
  }

  function NoiseBody(c: Cal): seq<Token>
    requires |c.nums| == SLOTS
  {
    Line(GYRO_DENSITY, "     ", c, GYRO_DENSITY_AT, ",\n")
      + (Line(GYRO_INSTABILITY, " ", c, GYRO_INSTABILITY_AT, ",\n")
      + Line(ACCEL_DENSITY, "    ", c, ACCEL_DENSITY_AT, "\n"))
  }

  function RefLine(c: Cal): seq<Token>
    requires |c.nums| == SLOTS
  {
    [Gap("    ")] + ([Key(REF_C)] + [Gap(" "), Num(c.nums[REF_AT]), Gap("\n")])
  }

  function TempBody(c: Cal): seq<Token>
    requires |c.nums| == SLOTS
  {
    Line(COEFF, " ", c, COEFF_AT, ",\n") + RefLine(c)
  }

  /** What follows a section's name: its braces around its body. */
  function Braced(body: seq<Token>, end: string): seq<Token> {
    [Gap(" ")] + ([OpenBrace] + ([Gap("\n")] + (body + ([Gap("  ")] + ([CloseBrace] + [Gap(end)])))))
  }

  function Section(has: bool, n: Name, body: seq<Token>, more: bool): seq<Token> {
    if has then [Gap("  ")] + ([Key(n)] + Braced(body, if more then ",\n" else "\n")) else []
  }

  function FileEnd(end: string): seq<Token> {
    [CloseBrace] + [Gap(end)]
  }

  function FromTemp(c: Cal): seq<Token>
    requires |c.nums| == SLOTS
  {
    Section(c.temp, GYRO_TEMP, TempBody(c), false)
  }

  function FromNoise(c: Cal): seq<Token>
    requires |c.nums| == SLOTS
  {
    Section(c.noise, NOISE, NoiseBody(c), c.temp) + FromTemp(c)
  }

  function FromAccel(c: Cal): seq<Token>
    requires |c.nums| == SLOTS
  {
    Section(c.accel, ACCEL, AccelBody(c), c.noise || c.temp) + FromNoise(c)
  }

  function FromGyro(c: Cal): seq<Token>
    requires |c.nums| == SLOTS
  {
    Section(c.gyro, GYRO, GyroBody(c), c.accel || c.noise || c.temp) + FromAccel(c)
  }

  /** All the sections that are present, in the order they are written. */
  function Sections(c: Cal): seq<Token>
    requires |c.nums| == SLOTS
  {
    Section(c.mag, MAG, MagBody(c), c.gyro || c.accel || c.noise || c.temp) + FromGyro(c)
  }

  /** The whole file; `end` is what stands after the last brace. */
  function FileTokens(c: Cal, end: string): seq<Token>
    requires |c.nums| == SLOTS
  {
    [OpenBrace] + ([Gap("\n")] + (Sections(c) + FileEnd(end)))
  }

  /** cal_write's text. */
  function Text(c: Cal): string
    requires |c.nums| == SLOTS
  {
    Render(FileTokens(c, "\n"))
  }

  // ---------- what cal_load makes of a text ----------

  datatype Outcome = Loaded(cal: Cal) | Refused

  datatype Got = Got(found: bool, nums: seq<string>)

  function Put(nums: seq<string>, at: nat, xs: seq<string>): (r: seq<string>)
    requires at + |xs| <= |nums|
    ensures |r| == |nums|
    ensures forall i :: 0 <= i < |nums| ==> r[i] == if at <= i < at + |xs| then xs[i - at] else nums[i]
  {
    nums[..at] + xs + nums[at + |xs|..]
  }

  /** load_array: the block must hold exactly `count` numbers; None when it does not. */
  function Field(sec: string, n: Name, at: nat, count: nat, nums: seq<string>): (r: Option<Got>)
    requires at + count <= |nums|
    ensures r.Some? ==> |r.value.nums| == |nums|
  {
    match StrStr(sec, Quote(n))
    case None => Some(Got(false, nums))
    case Some(k) =>
      match ParseArray(k)
      case None => None
      case Some(xs) => if |xs| == count then Some(Got(true, Put(nums, at, xs))) else None
  }

  function LoadMag(s: string, c: Cal): (r: Option<Cal>)
    requires |c.nums| == SLOTS
    ensures r.Some? ==> |r.value.nums| == SLOTS
  {
    match StrStr(s, Quote(MAG))
    case None => Some(c)
    case Some(sec) =>
      match Field(sec, HARD_IRON, HARD_AT, 3, c.nums)
      case None => None
      case Some(h) =>
        match Field(sec, SOFT_IRON, SOFT_AT, 9, h.nums)
        case None => None
        case Some(r) => Some(c.(mag := h.found, nums := r.nums))
  }

  function LoadAccel(s: string, c: Cal): (r: Option<Cal>)
    requires |c.nums| == SLOTS
    ensures r.Some? ==> |r.value.nums| == SLOTS
  {
    match StrStr(s, Quote(ACCEL))
    case None => Some(c)
    case Some(sec) =>
      match Field(sec, OFFSET, OFFSET_AT, 3, c.nums)
      case None => None
      case Some(o) =>
        match Field(sec, SCALE, SCALE_AT, 3, o.nums)
        case None => None
        case Some(r) => Some(c.(accel := o.found, nums := r.nums))
  }

  function LoadGyro(s: string, c: Cal): (r: Option<Cal>)
    requires |c.nums| == SLOTS
    ensures r.Some? ==> |r.value.nums| == SLOTS
  {
    match StrStr(s, Quote(GYRO))
    case None => Some(c)
    case Some(sec) =>
      match Field(sec, BIAS, BIAS_AT, 3, c.nums)
      case None => None
      case Some(b) => Some(c.(gyro := b.found, nums := b.nums))
  }

  function LoadNoise(s: string, c: Cal): (r: Option<Cal>)
    requires |c.nums| == SLOTS
    ensures r.Some? ==> |r.value.nums| == SLOTS
  {
    match StrStr(s, Quote(NOISE))
    case None => Some(c)
    case Some(sec) =>
      match Field(sec, GYRO_DENSITY, GYRO_DENSITY_AT, 3, c.nums)
      case None => None
      case Some(g) =>
        match Field(sec, GYRO_INSTABILITY, GYRO_INSTABILITY_AT, 3, g.nums)
        case None => None
        case Some(i) =>
          match Field(sec, ACCEL_DENSITY, ACCEL_DENSITY_AT, 3, i.nums)
          case None => None
          case Some(r) => Some(c.(noise := g.found, nums := r.nums))
  }

  function Reference(sec: string): Option<string> {
    match StrStr(sec, Quote(REF_C))
    case None => None
    case Some(k) => ParseScalar(k)
  }

  function LoadTemp(s: string, c: Cal): (r: Option<Cal>)
    requires |c.nums| == SLOTS
    ensures r.Some? ==> |r.value.nums| == SLOTS
  {
    match StrStr(s, Quote(GYRO_TEMP))
    case None => Some(c)
    case Some(sec) =>
      match Field(sec, COEFF, COEFF_AT, 3, c.nums)
      case None => None
      case Some(g) =>
        if g.found && Reference(sec).Some?
        then Some(c.(temp := true, nums := g.nums[REF_AT := Reference(sec).value]))
        else Some(c.(nums := g.nums))
  }

  const BLANK_CAL := Cal(false, false, false, false, false, Identity())

  /** The five sections in the order cal_load looks for them. */
  function LoadSections(s: string): (r: Option<Cal>)
    ensures r.Some? ==> |r.value.nums| == SLOTS
  {
    match LoadMag(s, BLANK_CAL)
    case None => None
    case Some(c1) =>
      match LoadAccel(s, c1)
      case None => None
      case Some(c2) =>
        match LoadGyro(s, c2)
        case None => None
        case Some(c3) =>
          match LoadNoise(s, c3)
          case None => None
          case Some(c4) => LoadTemp(s, c4)
  }

  function Parse(s: string): Outcome {
    if !Closed(s) then Refused
    else match LoadSections(s)
      case None => Refused
      case Some(c) => if Usable(c, false) then Loaded(c) else Refused
  }

  const BUFFER := 8191

  /** The C string in a buffer: what comes before the first NUL. */
  function CString(s: string): string {
    if s == "" || s[0] == '\0' then "" else [s[0]] + CString(s[1..])
  }

  /** cal_load of a file's bytes; no file at all is an uncalibrated start, not an error. */
  function Load(file: Option<string>): Outcome {
    match file
    case None => Loaded(BLANK_CAL)
    case Some(s) => Parse(CString(if |s| <= BUFFER then s else s[..BUFFER]))
  }
}
