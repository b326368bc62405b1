/**
 cal_load undoes cal_write: every subset of sections comes back with the same flags and
 the same printed numbers in the same slots, and no prefix that lacks the last brace loads.
 */
module CalRoundTrip {
  import opened JsonScan
  import opened CalJson

  // ---------- tidiness ----------

  lemma TripleTidy(a: string, b: string, c: string)
    requires Printed(a) && Printed(b) && Printed(c)
    ensures Tidy(Triple(a, b, c))
  {
    hide Printed;
    var ts := Triple(a, b, c);
    assert Followed(ts, 2) && Followed(ts, 4) && Followed(ts, 6);
  }

  lemma PlainTidy(ts: seq<Token>)
    requires forall i :: 0 <= i < |ts| ==> Sound(ts[i]) && !ts[i].Num?
    ensures Tidy(ts)
  {}

  lemma LineTidy(n: Name, pad: string, c: Cal, at: nat, end: string)
    requires at + 3 <= |c.nums| && AllBlank(pad) && AllBlank(end)
    requires Printed(c.nums[at]) && Printed(c.nums[at + 1]) && Printed(c.nums[at + 2])
    ensures Tidy(Line(n, pad, c, at, end)) && NoBraces(Line(n, pad, c, at, end))
  {
    hide Printed, Tidy;
    TripleTidy(c.nums[at], c.nums[at + 1], c.nums[at + 2]);
    PlainTidy([Gap(end)]);
    PlainTidy([Gap(pad)]);
    PlainTidy([Key(n)]);
    PlainTidy([Gap("    ")]);
    TidyAppend(TripleAt(c, at), [Gap(end)]);
    TidyAppend([Gap(pad)], TripleAt(c, at) + [Gap(end)]);
    TidyAppend([Key(n)], [Gap(pad)] + (TripleAt(c, at) + [Gap(end)]));
    TidyAppend([Gap("    ")], [Key(n)] + ([Gap(pad)] + (TripleAt(c, at) + [Gap(end)])));
  }

  lemma RowTidy(c: Cal, at: nat, end: string)
    requires at + 3 <= |c.nums| && AllBlank(end)
    requires Printed(c.nums[at]) && Printed(c.nums[at + 1]) && Printed(c.nums[at + 2])
    ensures Tidy(Row(c, at, end)) && NoBraces(Row(c, at, end))
  {
    hide Printed, Tidy;
    TripleTidy(c.nums[at], c.nums[at + 1], c.nums[at + 2]);
    PlainTidy([Gap(end)]);
    PlainTidy([Gap("      ")]);
    TidyAppend(TripleAt(c, at), [Gap(end)]);
    TidyAppend([Gap("      ")], TripleAt(c, at) + [Gap(end)]);
  }

  lemma Joined(a: seq<Token>, b: seq<Token>)
    requires Tidy(a) && Tidy(b) && NoBraces(a) && NoBraces(b)
    ensures Tidy(a + b) && NoBraces(a + b)
  {
    TidyAppend(a, b);
  }

  lemma SoftTidy(c: Cal)
    requires Formed(c) && c.mag
    ensures Tidy(SoftLines(c)) && NoBraces(SoftLines(c))
  {
    hide Printed, Tidy, NoBraces, Row;
    var r1, r2, r3 := Row(c, SOFT_AT, ",\n"), Row(c, SOFT_AT + 3, ",\n"), Row(c, SOFT_AT + 6, "\n");
    RowTidy(c, SOFT_AT, ",\n");
    RowTidy(c, SOFT_AT + 3, ",\n");
    RowTidy(c, SOFT_AT + 6, "\n");
    PlainPair([Gap("    "), CloseBracket]);
    PlainPair([Gap(" "), OpenBracket, Gap("\n")]);
    PlainPair([Gap("\n")]);
    PlainPair([Key(SOFT_IRON)]);
    PlainPair([Gap("    ")]);
    Joined(r3, [Gap("    "), CloseBracket]);
    Joined(r2, r3 + [Gap("    "), CloseBracket]);
    Joined(r1, r2 + (r3 + [Gap("    "), CloseBracket]));
    Joined([Gap(" "), OpenBracket, Gap("\n")], r1 + (r2 + (r3 + [Gap("    "), CloseBracket])));
    Joined(SoftBlock(c), [Gap("\n")]);
    Joined([Key(SOFT_IRON)], SoftBlock(c) + [Gap("\n")]);
    Joined([Gap("    ")], [Key(SOFT_IRON)] + (SoftBlock(c) + [Gap("\n")]));
  }

  lemma PlainPair(ts: seq<Token>)
    requires forall i :: 0 <= i < |ts| ==> Sound(ts[i]) && !ts[i].Num? && !ts[i].OpenBrace? && !ts[i].CloseBrace?
    ensures Tidy(ts) && NoBraces(ts)
  {}

  /** A body cal_write prints: tidy, and without braces of its own. */
  predicate Body(ts: seq<Token>) {
    Tidy(ts) && NoBraces(ts)
  }

  lemma BodiesTidy(c: Cal)
    requires Formed(c)
    ensures c.mag ==> Body(MagBody(c))
    ensures c.gyro ==> Body(GyroBody(c))
    ensures c.accel ==> Body(AccelBody(c))
    ensures c.noise ==> Body(NoiseBody(c))
    ensures c.temp ==> Body(TempBody(c))
  {
    hide Printed, Tidy, NoBraces, Line, SoftLines, RefLine;
    if c.mag {
      LineTidy(HARD_IRON, " ", c, HARD_AT, ",\n");
      SoftTidy(c);
      Joined(Line(HARD_IRON, " ", c, HARD_AT, ",\n"), SoftLines(c));
    }
    if c.gyro { LineTidy(BIAS, " ", c, BIAS_AT, "\n"); }
    if c.accel {
      LineTidy(OFFSET, " ", c, OFFSET_AT, ",\n");
      LineTidy(SCALE, "  ", c, SCALE_AT, "\n");
      Joined(Line(OFFSET, " ", c, OFFSET_AT, ",\n"), Line(SCALE, "  ", c, SCALE_AT, "\n"));
    }
    if c.noise { NoiseTidy(c); }
    if c.temp { TempTidy(c); }
  }

  lemma NoiseTidy(c: Cal)
    requires Formed(c) && c.noise
    ensures Body(NoiseBody(c))
  {
    hide Printed, Tidy, NoBraces, Line;
    LineTidy(GYRO_DENSITY, "     ", c, GYRO_DENSITY_AT, ",\n");
    LineTidy(GYRO_INSTABILITY, " ", c, GYRO_INSTABILITY_AT, ",\n");
    LineTidy(ACCEL_DENSITY, "    ", c, ACCEL_DENSITY_AT, "\n");
    Joined(Line(GYRO_INSTABILITY, " ", c, GYRO_INSTABILITY_AT, ",\n"), Line(ACCEL_DENSITY, "    ", c, ACCEL_DENSITY_AT, "\n"));
    Joined(Line(GYRO_DENSITY, "     ", c, GYRO_DENSITY_AT, ",\n"),
           Line(GYRO_INSTABILITY, " ", c, GYRO_INSTABILITY_AT, ",\n") + Line(ACCEL_DENSITY, "    ", c, ACCEL_DENSITY_AT, "\n"));
  }

  lemma TempTidy(c: Cal)
    requires Formed(c) && c.temp
    ensures Body(TempBody(c))
  {
    hide Printed, Line;
    LineTidy(COEFF, " ", c, COEFF_AT, ",\n");
    var tail := [Gap(" "), Num(c.nums[REF_AT]), Gap("\n")];
    assert Followed(tail, 1);
    PlainPair([Key(REF_C)]);
    PlainPair([Gap("    ")]);
    Joined([Key(REF_C)], tail);
    Joined([Gap("    ")], [Key(REF_C)] + tail);
    Joined(Line(COEFF, " ", c, COEFF_AT, ",\n"), RefLine(c));
  }

  lemma BracedTidy(body: seq<Token>, end: string)
    requires Tidy(body) && AllBlank(end)
    ensures Tidy(Braced(body, end))
  {
    hide Tidy;
    PlainTidy([Gap(end)]);
    PlainTidy([CloseBrace]);
    PlainTidy([Gap("  ")]);
    PlainTidy([Gap("\n")]);
    PlainTidy([OpenBrace]);
    PlainTidy([Gap(" ")]);
    var s1 := [CloseBrace] + [Gap(end)];
    var s2 := [Gap("  ")] + s1;
    var s3 := body + s2;
    var s4 := [Gap("\n")] + s3;
    TidyAppend([CloseBrace], [Gap(end)]);
    TidyAppend([Gap("  ")], s1);
    TidyAppend(body, s2);
    TidyAppend([Gap("\n")], s3);
    TidyAppend([OpenBrace], s4);
    TidyAppend([Gap(" ")], [OpenBrace] + s4);
  }

  lemma SectionTidy(has: bool, n: Name, body: seq<Token>, more: bool)
    requires has ==> Tidy(body)
    ensures Tidy(Section(has, n, body, more))
  {
    if has {
      var end := if more then ",\n" else "\n";
      BracedTidy(body, end);
      hide Tidy, Braced;
      PlainTidy([Gap("  ")]);
      PlainTidy([Key(n)]);
      TidyAppend([Key(n)], Braced(body, end));
      TidyAppend([Gap("  ")], [Key(n)] + Braced(body, end));
    }
  }

  lemma PartsTidy(c: Cal)
    requires Formed(c)
    ensures Tidy(MagPart(c)) && Tidy(GyroPart(c)) && Tidy(AccelPart(c)) && Tidy(NoisePart(c)) && Tidy(FromTemp(c))
  {
    assert |c.nums| == SLOTS;
    BodiesTidy(c);
    hide Formed, Tidy, NoBraces, Section, MagBody, GyroBody, AccelBody, NoiseBody, TempBody;
    SectionTidy(c.temp, GYRO_TEMP, TempBody(c), false);
    SectionTidy(c.noise, NOISE, NoiseBody(c), c.temp);
    SectionTidy(c.accel, ACCEL, AccelBody(c), c.noise || c.temp);
    SectionTidy(c.gyro, GYRO, GyroBody(c), c.accel || c.noise || c.temp);
    SectionTidy(c.mag, MAG, MagBody(c), c.gyro || c.accel || c.noise || c.temp);
  }

  lemma SectionsTidy(c: Cal)
    requires Formed(c)
    ensures Tidy(Sections(c))
  {
    assert |c.nums| == SLOTS;
    hide *;
    PartsTidy(c);
    PartsNamed(c);
    TidyAppend(NoisePart(c), FromTemp(c));
    TidyAppend(AccelPart(c), FromNoise(c));
    TidyAppend(GyroPart(c), FromAccel(c));
    TidyAppend(MagPart(c), FromGyro(c));
  }

  lemma FileTidy(c: Cal, end: string)
    requires Formed(c) && AllBlank(end)
    ensures Tidy(FileTokens(c, end))
  {
    SectionsTidy(c);
    hide Tidy, Sections;
    PlainTidy([OpenBrace]);
    PlainTidy([Gap("\n")]);
    PlainTidy([CloseBrace]);
    PlainTidy([Gap(end)]);
    TidyAppend([CloseBrace], [Gap(end)]);
    TidyAppend(Sections(c), FileEnd(end));
    TidyAppend([Gap("\n")], Sections(c) + FileEnd(end));
    TidyAppend([OpenBrace], [Gap("\n")] + (Sections(c) + FileEnd(end)));
  }

  // ---------- braces ----------

  lemma SectionLevel(has: bool, n: Name, body: seq<Token>, more: bool)
    requires has ==> Body(body)
    ensures Level(Render(Section(has, n, body, more)))
  {
    if has {
      var end := if more then ",\n" else "\n";
      assert AllBlank(end);
      SectionShape(n, body, end);
      BracedLevel(n, body, end);
    } else {
      FlatLevel("");
    }
  }

  /** A section, cut into what stands before, inside and after its braces. */
  function Shaped(n: Name, body: seq<Token>, end: string): seq<Token> {
    [Gap("  "), Key(n), Gap(" ")] + (Wrapped(body) + [Gap(end)])
  }

  function Inner(body: seq<Token>): seq<Token> {
    [Gap("\n")] + (body + [Gap("  ")])
  }

  function Wrapped(body: seq<Token>): seq<Token> {
    [OpenBrace] + (Inner(body) + [CloseBrace])
  }

  lemma SectionShape(n: Name, body: seq<Token>, end: string)
    ensures [Gap("  ")] + ([Key(n)] + Braced(body, end)) == Shaped(n, body, end)
  {
    assert Inner(body) + [CloseBrace] == [Gap("\n")] + (body + ([Gap("  ")] + [CloseBrace]));
    assert Braced(body, end) == [Gap(" ")] + (Wrapped(body) + [Gap(end)]);
  }

  lemma InnerFlat(body: seq<Token>)
    requires Body(body)
    ensures Level(Render(Inner(body)))
  {
    PlainPair([Gap("\n")]);
    PlainPair([Gap("  ")]);
    hide Level, Tidy, NoBraces;
    Joined(body, [Gap("  ")]);
    Joined([Gap("\n")], body + [Gap("  ")]);
    FlatTokens(Inner(body));
  }

  lemma BracedLevel(n: Name, body: seq<Token>, end: string)
    requires Body(body) && AllBlank(end)
    ensures Level(Render(Shaped(n, body, end)))
  {
    var head := [Gap("  "), Key(n), Gap(" ")];
    PlainPair([Gap(end)]);
    PlainPair(head);
    InnerFlat(body);
    hide Level, Tidy, NoBraces, Inner, Body;
    FlatTokens(head);
    FlatTokens([Gap(end)]);
    LevelWrap(Render(Inner(body)));
    WrapText(Inner(body));
    JoinLevel(Wrapped(body), [Gap(end)]);
    JoinLevel(head, Wrapped(body) + [Gap(end)]);
  }

  lemma FlatTokens(ts: seq<Token>)
    requires Tidy(ts) && NoBraces(ts)
    ensures Level(Render(ts))
  {
    NoBracesPrinted(ts);
    FlatLevel(Render(ts));
  }

  lemma WrapText(inner: seq<Token>)
    ensures Render([OpenBrace] + (inner + [CloseBrace])) == "{" + Render(inner) + "}"
  {
    RenderAppend([OpenBrace], inner + [CloseBrace]);
    RenderAppend(inner, [CloseBrace]);
    RenderOne(OpenBrace);
    RenderOne(CloseBrace);
  }

  lemma PartsLevel(c: Cal)
    requires Formed(c)
    ensures Level(Render(MagPart(c))) && Level(Render(GyroPart(c))) && Level(Render(AccelPart(c)))
    ensures Level(Render(NoisePart(c))) && Level(Render(FromTemp(c)))
  {
    assert |c.nums| == SLOTS;
    PartShapes(c);
    hide *;
    BodiesTidy(c);
    SectionLevel(c.temp, GYRO_TEMP, TempBody(c), false);
    SectionLevel(c.noise, NOISE, NoiseBody(c), c.temp);
    SectionLevel(c.accel, ACCEL, AccelBody(c), c.noise || c.temp);
    SectionLevel(c.gyro, GYRO, GyroBody(c), c.accel || c.noise || c.temp);
    SectionLevel(c.mag, MAG, MagBody(c), c.gyro || c.accel || c.noise || c.temp);
  }

  lemma PartShapes(c: Cal)
    requires |c.nums| == SLOTS
    ensures MagPart(c) == Section(c.mag, MAG, MagBody(c), c.gyro || c.accel || c.noise || c.temp)
    ensures GyroPart(c) == Section(c.gyro, GYRO, GyroBody(c), c.accel || c.noise || c.temp)
    ensures AccelPart(c) == Section(c.accel, ACCEL, AccelBody(c), c.noise || c.temp)
    ensures NoisePart(c) == Section(c.noise, NOISE, NoiseBody(c), c.temp)
    ensures FromTemp(c) == Section(c.temp, GYRO_TEMP, TempBody(c), false)
  {}

  lemma SectionsLevel(c: Cal)
    requires Formed(c)
    ensures Level(Render(Sections(c)))
  {
    assert |c.nums| == SLOTS;
    hide *;
    PartsLevel(c);
    PartsNamed(c);
    JoinLevel(NoisePart(c), FromTemp(c));
    JoinLevel(AccelPart(c), FromNoise(c));
    JoinLevel(GyroPart(c), FromAccel(c));
    JoinLevel(MagPart(c), FromGyro(c));
  }

  lemma JoinLevel(a: seq<Token>, b: seq<Token>)
    requires Level(Render(a)) && Level(Render(b))
    ensures Level(Render(a + b))
  {
    RenderAppend(a, b);
    LevelAppend(Render(a), Render(b));
  }

  lemma FileShape(s: seq<Token>, end: string)
    ensures [OpenBrace] + ([Gap("\n")] + (s + FileEnd(end)))
         == ([OpenBrace] + (([Gap("\n")] + s) + [CloseBrace])) + [Gap(end)]
  {}

  lemma FileRendered(s: seq<Token>, end: string)
    ensures Render([OpenBrace] + ([Gap("\n")] + (s + FileEnd(end)))) == "{" + ("\n" + Render(s)) + "}" + end
  {
    FileShape(s, end);
    hide Render, FileEnd;
    var inner := [Gap("\n")] + s;
    RenderAppend([OpenBrace] + (inner + [CloseBrace]), [Gap(end)]);
    WrapText(inner);
    RenderAppend([Gap("\n")], s);
    RenderOne(Gap("\n"));
    RenderOne(Gap(end));
  }

  /** The text is the sections inside one pair of braces. */
  lemma FileText(c: Cal, end: string)
    requires Formed(c)
    ensures Render(FileTokens(c, end)) == "{" + ("\n" + Render(Sections(c))) + "}" + end
    ensures Level("\n" + Render(Sections(c)))
  {
    SectionsLevel(c);
    hide Sections, Level, Formed, Render, FileEnd;
    FileRendered(Sections(c), end);
    FlatLevel("\n");
    LevelAppend("\n", Render(Sections(c)));
  }

  lemma FileClosed(c: Cal, end: string)
    requires Formed(c) && AllBlank(end)
    ensures Closed(Render(FileTokens(c, end)))
  {
    FileText(c, end);
    hide Level, FileTokens, Sections, Formed, Render;
    var inner := "\n" + Render(Sections(c));
    LevelWrap(inner);
    FlatLevel(end);
    LevelAppend("{" + inner + "}", end);
    LevelIsClosed("{" + inner + "}" + end);
  }

  lemma LevelIsClosed(s: string)
    requires Level(s) && '{' in s
    ensures Closed(s)
  {}

  /** A text cut anywhere before its last brace is still open, or empty. */
  lemma CutOpen(c: Cal, k: nat)
    requires Formed(c) && k + 2 <= |Text(c)|
    ensures !Closed(Text(c)[..k])
  {
    FileText(c, "\n");
    hide Level, FileTokens, Sections, Formed, Render, Closed, Depth;
    CutOpenText("\n" + Render(Sections(c)), k);
  }

  lemma CutOpenText(inner: string, k: nat)
    requires Level(inner) && k < |inner| + 2
    ensures !Closed(("{" + inner + "}" + "\n")[..k])
  {
    hide Level, Depth;
    var whole := "{" + inner + "}";
    assert (whole + "\n")[..k] == whole[..k];
    if k > 0 { OpenInside(inner, k); }
  }

  // ---------- finding the sections ----------

  lemma KeysInLine(n: Name, pad: string, c: Cal, at: nat, end: string, m: Name)
    requires at + 3 <= |c.nums| && Key(m) in Line(n, pad, c, at, end)
    ensures m == n
  {
    assert Key(m) !in [Gap("    ")] && Key(m) !in [Gap(pad)] && Key(m) !in [Gap(end)];
    NoKeyInTriple(c, at, m);
  }

  lemma NoKeyInTriple(c: Cal, at: nat, m: Name)
    requires at + 3 <= |c.nums|
    ensures Key(m) !in TripleAt(c, at)
  {}

  lemma KeysInSoft(c: Cal, m: Name)
    requires |c.nums| == SLOTS && Key(m) in SoftLines(c)
    ensures m == SOFT_IRON
  {
    hide TripleAt;
    NoKeyInTriple(c, SOFT_AT, m);
    NoKeyInTriple(c, SOFT_AT + 3, m);
    NoKeyInTriple(c, SOFT_AT + 6, m);
  }

  lemma KeysInSection(has: bool, n: Name, body: seq<Token>, more: bool, m: Name)
    requires Key(m) in Section(has, n, body, more)
    ensures has && (m == n || Key(m) in body)
  {}

  predicate MagKey(m: Name) { m == MAG || m == HARD_IRON || m == SOFT_IRON }
  predicate GyroKey(m: Name) { m == GYRO || m == BIAS }
  predicate AccelKey(m: Name) { m == ACCEL || m == OFFSET || m == SCALE }
  predicate NoiseKey(m: Name) { m == NOISE || m == GYRO_DENSITY || m == GYRO_INSTABILITY || m == ACCEL_DENSITY }
  predicate TempKey(m: Name) { m == GYRO_TEMP || m == COEFF || m == REF_C }

  function MagPart(c: Cal): seq<Token> requires |c.nums| == SLOTS {
    Section(c.mag, MAG, MagBody(c), c.gyro || c.accel || c.noise || c.temp)
  }
  function GyroPart(c: Cal): seq<Token> requires |c.nums| == SLOTS {
    Section(c.gyro, GYRO, GyroBody(c), c.accel || c.noise || c.temp)
  }
  function AccelPart(c: Cal): seq<Token> requires |c.nums| == SLOTS {
    Section(c.accel, ACCEL, AccelBody(c), c.noise || c.temp)
  }
  function NoisePart(c: Cal): seq<Token> requires |c.nums| == SLOTS {
    Section(c.noise, NOISE, NoiseBody(c), c.temp)
  }

  /** Each section mentions only its own names. */
  lemma KeysOfParts(c: Cal, m: Name)
    requires |c.nums| == SLOTS
    ensures Key(m) in MagPart(c) ==> c.mag && MagKey(m)
    ensures Key(m) in GyroPart(c) ==> c.gyro && GyroKey(m)
    ensures Key(m) in AccelPart(c) ==> c.accel && AccelKey(m)
    ensures Key(m) in NoisePart(c) ==> c.noise && NoiseKey(m)
    ensures Key(m) in FromTemp(c) ==> c.temp && TempKey(m)
  {
    hide Section, Line, SoftLines;
    if Key(m) in MagPart(c) {
      KeysInSection(c.mag, MAG, MagBody(c), c.gyro || c.accel || c.noise || c.temp, m);
      if Key(m) in Line(HARD_IRON, " ", c, HARD_AT, ",\n") { KeysInLine(HARD_IRON, " ", c, HARD_AT, ",\n", m); }
      if Key(m) in SoftLines(c) { KeysInSoft(c, m); }
    }
    if Key(m) in GyroPart(c) {
      KeysInSection(c.gyro, GYRO, GyroBody(c), c.accel || c.noise || c.temp, m);
      if Key(m) in GyroBody(c) { KeysInLine(BIAS, " ", c, BIAS_AT, "\n", m); }
    }
    if Key(m) in AccelPart(c) {
      KeysInSection(c.accel, ACCEL, AccelBody(c), c.noise || c.temp, m);
      if Key(m) in Line(OFFSET, " ", c, OFFSET_AT, ",\n") { KeysInLine(OFFSET, " ", c, OFFSET_AT, ",\n", m); }
      if Key(m) in Line(SCALE, "  ", c, SCALE_AT, "\n") { KeysInLine(SCALE, "  ", c, SCALE_AT, "\n", m); }
    }
    if Key(m) in NoisePart(c) { NoiseKeys(c, m); }
    if Key(m) in FromTemp(c) { TempKeys(c, m); }
  }

  lemma NoiseKeys(c: Cal, m: Name)
    requires |c.nums| == SLOTS && Key(m) in NoisePart(c)
    ensures c.noise && NoiseKey(m)
  {
    hide Section, Line;
    KeysInSection(c.noise, NOISE, NoiseBody(c), c.temp, m);
    if Key(m) in Line(GYRO_DENSITY, "     ", c, GYRO_DENSITY_AT, ",\n") {
      KeysInLine(GYRO_DENSITY, "     ", c, GYRO_DENSITY_AT, ",\n", m);
    }
    if Key(m) in Line(GYRO_INSTABILITY, " ", c, GYRO_INSTABILITY_AT, ",\n") {
      KeysInLine(GYRO_INSTABILITY, " ", c, GYRO_INSTABILITY_AT, ",\n", m);
    }
    if Key(m) in Line(ACCEL_DENSITY, "    ", c, ACCEL_DENSITY_AT, "\n") {
      KeysInLine(ACCEL_DENSITY, "    ", c, ACCEL_DENSITY_AT, "\n", m);
    }
  }

  lemma TempKeys(c: Cal, m: Name)
    requires |c.nums| == SLOTS && Key(m) in FromTemp(c)
    ensures c.temp && TempKey(m)
  {
    hide Section, Line;
    KeysInSection(c.temp, GYRO_TEMP, TempBody(c), false, m);
    if Key(m) in Line(COEFF, " ", c, COEFF_AT, ",\n") { KeysInLine(COEFF, " ", c, COEFF_AT, ",\n", m); }
  }

  // ---------- reading one array back ----------

  lemma Peel(t: Token, rest: seq<Token>, d: int, got: seq<string>)
    ensures ScanTokens([t] + rest, d, got) ==
      match t
      case Gap(_) => ScanTokens(rest, d, got)
      case Num(x) => ScanTokens(rest, d, got + [x])
      case OpenBracket => ScanTokens(rest, d + 1, got)
      case CloseBracket => if d - 1 == 0 then Some(got) else ScanTokens(rest, d - 1, got)
      case _ => None
  {
    assert ([t] + rest)[1..] == rest;
  }

  lemma TripleNest(x: string, y: string, z: string, rest: seq<Token>)
    ensures Triple(x, y, z) + rest
         == [OpenBracket] + ([Gap(" ")] + ([Num(x)] + ([Gap(", ")] + ([Num(y)] + ([Gap(", ")] + ([Num(z)]
            + ([Gap(" ")] + ([CloseBracket] + rest))))))))
  {}

  /** A bracketed triple ends the array at the outermost level, and adds to it further in. */
  lemma TripleScan(x: string, y: string, z: string, rest: seq<Token>, d: nat, got: seq<string>)
    ensures ScanTokens(Triple(x, y, z) + rest, d, got)
         == if d == 0 then Some(got + [x, y, z]) else ScanTokens(rest, d, got + [x, y, z])
  {
    hide ScanTokens, Triple;
    TripleNest(x, y, z, rest);
    var r8 := [CloseBracket] + rest;
    var r7 := [Gap(" ")] + r8;
    var r6 := [Num(z)] + r7;
    var r5 := [Gap(", ")] + r6;
    var r4 := [Num(y)] + r5;
    var r3 := [Gap(", ")] + r4;
    var r2 := [Num(x)] + r3;
    var r1 := [Gap(" ")] + r2;
    Peel(OpenBracket, r1, d, got);
    Peel(Gap(" "), r2, d + 1, got);
    Peel(Num(x), r3, d + 1, got);
    Peel(Gap(", "), r4, d + 1, got + [x]);
    Peel(Num(y), r5, d + 1, got + [x]);
    Peel(Gap(", "), r6, d + 1, got + [x] + [y]);
    Peel(Num(z), r7, d + 1, got + [x] + [y]);
    Peel(Gap(" "), r8, d + 1, got + [x] + [y] + [z]);
    Peel(CloseBracket, rest, d + 1, got + [x] + [y] + [z]);
    assert got + [x] + [y] + [z] == got + [x, y, z];
  }

  lemma BracketPast(t: Token, rest: seq<Token>)
    ensures FindBracket([t] + rest) == if t.OpenBracket? then Some([t] + rest) else FindBracket(rest)
  {
    assert ([t] + rest)[1..] == rest;
  }

  function Slots(c: Cal, at: nat, n: nat): seq<string>
    requires at + n <= |c.nums|
  {
    c.nums[at..at + n]
  }

  lemma LineNest(n: Name, pad: string, c: Cal, at: nat, end: string, rest: seq<Token>)
    requires at + 3 <= |c.nums|
    ensures Line(n, pad, c, at, end) + rest
         == [Gap("    ")] + ([Key(n)] + ([Gap(pad)] + (TripleAt(c, at) + ([Gap(end)] + rest))))
  {
    hide TripleAt;
  }

  lemma Assoc(a: seq<Token>, b: seq<Token>, c: seq<Token>)
    ensures (a + b) + c == a + (b + c)
  {}

  /** load_array on the first line of that name gives the line's three numbers. */
  lemma FieldOfLine(a: seq<Token>, n: Name, pad: string, c: Cal, at: nat, end: string, rest: seq<Token>, nums: seq<string>)
    requires at + 3 <= |c.nums| == |nums| && Key(n) !in a
    requires Tidy(a + (Line(n, pad, c, at, end) + rest))
    ensures Field(Render(a + (Line(n, pad, c, at, end) + rest)), n, at, 3, nums)
         == Some(Got(true, Put(nums, at, Slots(c, at, 3))))
  {
    hide Tidy, Line, TripleAt, Render, ParseArray, StrStr, FindKey, ArrayTokens, Put;
    var u := a + (Line(n, pad, c, at, end) + rest);
    var found := [Key(n)] + ([Gap(pad)] + (TripleAt(c, at) + ([Gap(end)] + rest)));
    LineFound(a, n, pad, c, at, end, rest);
    StrStrIsFindKey(u, n);
    ParseArrayIsTokens(found);
    ArrayAfterKey(n, pad, c, at, [Gap(end)] + rest);
    assert |Slots(c, at, 3)| == 3;
  }

  lemma LineFound(a: seq<Token>, n: Name, pad: string, c: Cal, at: nat, end: string, rest: seq<Token>)
    requires at + 3 <= |c.nums| && Key(n) !in a
    ensures FindKey(a + (Line(n, pad, c, at, end) + rest), n)
         == Some([Key(n)] + ([Gap(pad)] + (TripleAt(c, at) + ([Gap(end)] + rest))))
  {
    LineNest(n, pad, c, at, end, rest);
    hide Line, TripleAt, FindKey;
    var after := [Gap(pad)] + (TripleAt(c, at) + ([Gap(end)] + rest));
    Assoc(a, [Gap("    ")], [Key(n)] + after);
    FindAt(a + [Gap("    ")], n, after);
  }

  lemma ArrayAfterKey(n: Name, pad: string, c: Cal, at: nat, rest: seq<Token>)
    requires at + 3 <= |c.nums|
    ensures ArrayTokens([Key(n)] + ([Gap(pad)] + (TripleAt(c, at) + rest))) == Some(Slots(c, at, 3))
  {
    hide ScanTokens, FindBracket;
    var x, y, z := c.nums[at], c.nums[at + 1], c.nums[at + 2];
    BracketPast(Key(n), [Gap(pad)] + (TripleAt(c, at) + rest));
    BracketPast(Gap(pad), TripleAt(c, at) + rest);
    StartsOpen(x, y, z, rest);
    TripleScan(x, y, z, rest, 0, []);
    assert [] + [x, y, z] == Slots(c, at, 3);
  }

  lemma StartsOpen(x: string, y: string, z: string, rest: seq<Token>)
    ensures FindBracket(Triple(x, y, z) + rest) == Some(Triple(x, y, z) + rest)
  {}

  lemma RowScan(c: Cal, at: nat, end: string, rest: seq<Token>, d: nat, got: seq<string>)
    requires at + 3 <= |c.nums| && d > 0
    ensures ScanTokens(Row(c, at, end) + rest, d, got) == ScanTokens(rest, d, got + Slots(c, at, 3))
  {
    hide ScanTokens, Triple;
    var x, y, z := c.nums[at], c.nums[at + 1], c.nums[at + 2];
    assert Row(c, at, end) + rest == [Gap("      ")] + (TripleAt(c, at) + ([Gap(end)] + rest));
    Peel(Gap("      "), TripleAt(c, at) + ([Gap(end)] + rest), d, got);
    TripleScan(x, y, z, [Gap(end)] + rest, d, got);
    Peel(Gap(end), rest, d, got + [x, y, z]);
    assert [x, y, z] == Slots(c, at, 3);
  }

  lemma SoftNest(c: Cal, rest: seq<Token>)
    requires |c.nums| == SLOTS
    ensures SoftBlock(c) + rest
         == [Gap(" ")] + ([OpenBracket] + ([Gap("\n")] + (Row(c, SOFT_AT, ",\n") + (Row(c, SOFT_AT + 3, ",\n")
            + (Row(c, SOFT_AT + 6, "\n") + ([Gap("    ")] + ([CloseBracket] + rest)))))))
  {
    hide Row;
  }

  lemma SoftScan(c: Cal, rest: seq<Token>)
    requires |c.nums| == SLOTS
    ensures ArrayTokens([Key(SOFT_IRON)] + (SoftBlock(c) + rest)) == Some(Slots(c, SOFT_AT, 9))
  {
    hide ScanTokens, FindBracket, Row, SoftBlock;
    SoftNest(c, rest);
    var r6 := [CloseBracket] + rest;
    var r5 := [Gap("    ")] + r6;
    var r4 := Row(c, SOFT_AT + 6, "\n") + r5;
    var r3 := Row(c, SOFT_AT + 3, ",\n") + r4;
    var r2 := Row(c, SOFT_AT, ",\n") + r3;
    var r1 := [Gap("\n")] + r2;
    BracketPast(Key(SOFT_IRON), [Gap(" ")] + ([OpenBracket] + r1));
    BracketPast(Gap(" "), [OpenBracket] + r1);
    BracketPast(OpenBracket, r1);
    Peel(OpenBracket, r1, 0, []);
    Peel(Gap("\n"), r2, 1, []);
    RowScan(c, SOFT_AT, ",\n", r3, 1, []);
    var g1 := [] + Slots(c, SOFT_AT, 3);
    RowScan(c, SOFT_AT + 3, ",\n", r4, 1, g1);
    var g2 := g1 + Slots(c, SOFT_AT + 3, 3);
    RowScan(c, SOFT_AT + 6, "\n", r5, 1, g2);
    var g3 := g2 + Slots(c, SOFT_AT + 6, 3);
    Peel(Gap("    "), r6, 1, g3);
    Peel(CloseBracket, rest, 1, g3);
    assert g3 == Slots(c, SOFT_AT, 9);
  }

  /** load_array on soft_iron gives all nine numbers, row by row. */
  lemma FieldOfSoft(a: seq<Token>, c: Cal, rest: seq<Token>, nums: seq<string>)
    requires |c.nums| == SLOTS == |nums| && Key(SOFT_IRON) !in a
    requires Tidy(a + (SoftLines(c) + rest))
    ensures Field(Render(a + (SoftLines(c) + rest)), SOFT_IRON, SOFT_AT, 9, nums)
         == Some(Got(true, Put(nums, SOFT_AT, Slots(c, SOFT_AT, 9))))
  {
    hide Tidy, SoftBlock, Render, ParseArray, StrStr, FindKey, ArrayTokens, Put;
    var u := a + (SoftLines(c) + rest);
    var after := SoftBlock(c) + ([Gap("\n")] + rest);
    assert SoftLines(c) + rest == [Gap("    ")] + ([Key(SOFT_IRON)] + after);
    Assoc(a, [Gap("    ")], [Key(SOFT_IRON)] + after);
    FindAt(a + [Gap("    ")], SOFT_IRON, after);
    StrStrIsFindKey(u, SOFT_IRON);
    ParseArrayIsTokens([Key(SOFT_IRON)] + after);
    SoftScan(c, [Gap("\n")] + rest);
    assert |Slots(c, SOFT_AT, 9)| == 9;
  }

  lemma RefNest(a: seq<Token>, c: Cal, rest: seq<Token>)
    requires |c.nums| == SLOTS
    ensures a + (RefLine(c) + rest)
         == (a + [Gap("    ")]) + ([Key(REF_C)] + ([Gap(" "), Num(c.nums[REF_AT]), Gap("\n")] + rest))
  {}

  /** parse_scalar on ref_c gives its number. */
  lemma ReferenceOfLine(a: seq<Token>, c: Cal, rest: seq<Token>)
    requires |c.nums| == SLOTS && Printed(c.nums[REF_AT]) && Key(REF_C) !in a
    requires Tidy(a + (RefLine(c) + rest))
    ensures Reference(Render(a + (RefLine(c) + rest))) == Some(c.nums[REF_AT])
  {
    RefNest(a, c, rest);
    hide Tidy, RefLine, Printed, FindKey, StrStr, ParseScalar, Render;
    var u := a + (RefLine(c) + rest);
    var after := [Gap(" "), Num(c.nums[REF_AT]), Gap("\n")] + rest;
    FindAt(a + [Gap("    ")], REF_C, after);
    StrStrIsFindKey(u, REF_C);
    ScalarText(c.nums[REF_AT], rest);
  }

  lemma ScalarText(t: string, rest: seq<Token>)
    requires Printed(t)
    ensures ParseScalar(Render([Key(REF_C)] + ([Gap(" "), Num(t), Gap("\n")] + rest))) == Some(t)
  {
    hide Printed, Strtof, Quote, Render, StrChr;
    var line := [Gap(" "), Num(t), Gap("\n")] + rest;
    var tail := "\n" + Render(rest);
    var s := Render([Key(REF_C)] + line);
    assert line == [Gap(" ")] + ([Num(t)] + ([Gap("\n")] + rest));
    ThreeRendered(t, rest);
    RenderAppend([Key(REF_C)], line);
    RenderOne(Key(REF_C));
    assert s == Quote(REF_C) + (":" + (" " + t + tail));
    KeyText(REF_C);
    SkipChar(Quote(REF_C), ":" + (" " + t + tail), ':');
    FoundHere(':', " " + t + tail);
    assert (":" + (" " + t + tail))[1..] == " " + t + tail;
    StrtofPrinted(" ", t, tail);
  }

  lemma ThreeRendered(t: string, rest: seq<Token>)
    ensures Render([Gap(" ")] + ([Num(t)] + ([Gap("\n")] + rest))) == " " + t + ("\n" + Render(rest))
  {
    hide Render;
    RenderAppend([Gap(" ")], [Num(t)] + ([Gap("\n")] + rest));
    RenderAppend([Num(t)], [Gap("\n")] + rest);
    RenderAppend([Gap("\n")], rest);
    RenderOne(Gap(" "));
    RenderOne(Num(t));
    RenderOne(Gap("\n"));
  }

  // ---------- reading one section back ----------

  function Opening(n: Name): seq<Token> {
    [Key(n), Gap(" "), OpenBrace, Gap("\n")]
  }

  function Closing(more: bool, rest: seq<Token>): seq<Token> {
    [Gap("  ")] + ([CloseBrace] + ([Gap(if more then ",\n" else "\n")] + rest))
  }

  /** The file from a section's name on. */
  function View(n: Name, body: seq<Token>, more: bool, rest: seq<Token>): seq<Token> {
    Opening(n) + (body + Closing(more, rest))
  }

  lemma ViewOf(n: Name, body: seq<Token>, more: bool, rest: seq<Token>)
    ensures Section(true, n, body, more) + rest == [Gap("  ")] + View(n, body, more, rest)
  {
    var end := if more then ",\n" else "\n";
    assert Section(true, n, body, more) + rest
        == [Gap("  "), Key(n), Gap(" "), OpenBrace, Gap("\n")] + (body + ([Gap("  "), CloseBrace, Gap(end)] + rest));
    assert [Gap("  "), CloseBrace, Gap(end)] + rest == Closing(more, rest);
    assert [Gap("  "), Key(n), Gap(" "), OpenBrace, Gap("\n")] == [Gap("  ")] + Opening(n);
    Assoc([Gap("  ")], Opening(n), body + Closing(more, rest));
  }

  lemma Found(before: seq<Token>, n: Name, body: seq<Token>, more: bool, rest: seq<Token>)
    requires Key(n) !in before && Tidy(before + (Section(true, n, body, more) + rest))
    ensures StrStr(Render(before + (Section(true, n, body, more) + rest)), Quote(n))
         == Some(Render(View(n, body, more, rest)))
    ensures Tidy(View(n, body, more, rest))
  {
    hide Tidy, StrStr, Render, Section, FindKey;
    ViewOf(n, body, more, rest);
    var v := View(n, body, more, rest);
    var after := [Gap(" "), OpenBrace, Gap("\n")] + (body + Closing(more, rest));
    assert v == [Key(n)] + after;
    Assoc(before, [Gap("  ")], v);
    FindAt(before + [Gap("  ")], n, after);
    StrStrIsFindKey(before + (Section(true, n, body, more) + rest), n);
  }

  lemma NotFound(ts: seq<Token>, n: Name)
    requires Key(n) !in ts && Tidy(ts)
    ensures StrStr(Render(ts), Quote(n)) == None
  {
    StrStrIsFindKey(ts, n);
    FindNone(ts, n);
  }

  lemma TwoLines(o: seq<Token>, l1: seq<Token>, l2: seq<Token>, z: seq<Token>)
    ensures o + ((l1 + l2) + z) == o + (l1 + (l2 + z)) == (o + l1) + (l2 + z)
  {}

  lemma OpeningKeys(n: Name, m: Name)
    requires n != m
    ensures Key(m) !in Opening(n)
  {}

  function Fill(nums: seq<string>, c: Cal, at: nat, n: nat): (r: seq<string>)
    requires |nums| == |c.nums| == SLOTS && at + n <= SLOTS
    ensures |r| == SLOTS
    ensures forall i :: 0 <= i < SLOTS ==> r[i] == if at <= i < at + n then c.nums[i] else nums[i]
  {
    Put(nums, at, Slots(c, at, n))
  }

  function WithMag(c: Cal, k: Cal): (r: Cal)
    requires |c.nums| == |k.nums| == SLOTS
    ensures |r.nums| == SLOTS
  {
    k.(mag := true, nums := Fill(Fill(k.nums, c, HARD_AT, 3), c, SOFT_AT, 9))
  }
  function WithGyro(c: Cal, k: Cal): (r: Cal)
    requires |c.nums| == |k.nums| == SLOTS
    ensures |r.nums| == SLOTS
  {
    k.(gyro := true, nums := Fill(k.nums, c, BIAS_AT, 3))
  }
  function WithAccel(c: Cal, k: Cal): (r: Cal)
    requires |c.nums| == |k.nums| == SLOTS
    ensures |r.nums| == SLOTS
  {
    k.(accel := true, nums := Fill(Fill(k.nums, c, OFFSET_AT, 3), c, SCALE_AT, 3))
  }
  function WithNoise(c: Cal, k: Cal): (r: Cal)
    requires |c.nums| == |k.nums| == SLOTS
    ensures |r.nums| == SLOTS
  {
    k.(noise := true,
       nums := Fill(Fill(Fill(k.nums, c, GYRO_DENSITY_AT, 3), c, GYRO_INSTABILITY_AT, 3), c, ACCEL_DENSITY_AT, 3))
  }
  function WithTemp(c: Cal, k: Cal): (r: Cal)
    requires |c.nums| == |k.nums| == SLOTS
    ensures |r.nums| == SLOTS
  {
    k.(temp := true, nums := Fill(Fill(k.nums, c, COEFF_AT, 3), c, REF_AT, 1))
  }

  lemma MagView(c: Cal, more: bool, rest: seq<Token>, k: Cal, s: string)
    requires |c.nums| == |k.nums| == SLOTS && Tidy(View(MAG, MagBody(c), more, rest))
    requires StrStr(s, Quote(MAG)) == Some(Render(View(MAG, MagBody(c), more, rest)))
    ensures LoadMag(s, k) == Some(WithMag(c, k))
  {
    hide Tidy, StrStr, Render, Line, SoftLines, Field, Closing, Opening;
    var o, z := Opening(MAG), Closing(more, rest);
    var l1, l2 := Line(HARD_IRON, " ", c, HARD_AT, ",\n"), SoftLines(c);
    TwoLines(o, l1, l2, z);
    OpeningKeys(MAG, HARD_IRON);
    OpeningKeys(MAG, SOFT_IRON);
    if Key(SOFT_IRON) in l1 { KeysInLine(HARD_IRON, " ", c, HARD_AT, ",\n", SOFT_IRON); }
    FieldOfLine(o, HARD_IRON, " ", c, HARD_AT, ",\n", l2 + z, k.nums);
    FieldOfSoft(o + l1, c, z, Fill(k.nums, c, HARD_AT, 3));
  }

  lemma GyroView(c: Cal, more: bool, rest: seq<Token>, k: Cal, s: string)
    requires |c.nums| == |k.nums| == SLOTS && Tidy(View(GYRO, GyroBody(c), more, rest))
    requires StrStr(s, Quote(GYRO)) == Some(Render(View(GYRO, GyroBody(c), more, rest)))
    ensures LoadGyro(s, k) == Some(WithGyro(c, k))
  {
    hide Tidy, StrStr, Render, Line, Field, Closing, Opening;
    OpeningKeys(GYRO, BIAS);
    FieldOfLine(Opening(GYRO), BIAS, " ", c, BIAS_AT, "\n", Closing(more, rest), k.nums);
  }

  lemma AccelView(c: Cal, more: bool, rest: seq<Token>, k: Cal, s: string)
    requires |c.nums| == |k.nums| == SLOTS && Tidy(View(ACCEL, AccelBody(c), more, rest))
    requires StrStr(s, Quote(ACCEL)) == Some(Render(View(ACCEL, AccelBody(c), more, rest)))
    ensures LoadAccel(s, k) == Some(WithAccel(c, k))
  {
    hide Tidy, StrStr, Render, Line, Field, Closing, Opening;
    var o, z := Opening(ACCEL), Closing(more, rest);
    var l1, l2 := Line(OFFSET, " ", c, OFFSET_AT, ",\n"), Line(SCALE, "  ", c, SCALE_AT, "\n");
    TwoLines(o, l1, l2, z);
    OpeningKeys(ACCEL, OFFSET);
    OpeningKeys(ACCEL, SCALE);
    if Key(SCALE) in l1 { KeysInLine(OFFSET, " ", c, OFFSET_AT, ",\n", SCALE); }
    FieldOfLine(o, OFFSET, " ", c, OFFSET_AT, ",\n", l2 + z, k.nums);
    FieldOfLine(o + l1, SCALE, "  ", c, SCALE_AT, "\n", z, Fill(k.nums, c, OFFSET_AT, 3));
  }

  lemma ThreeLines(o: seq<Token>, l1: seq<Token>, l2: seq<Token>, l3: seq<Token>, z: seq<Token>)
    ensures o + ((l1 + (l2 + l3)) + z) == o + (l1 + (l2 + (l3 + z)))
    ensures o + ((l1 + (l2 + l3)) + z) == (o + l1) + (l2 + (l3 + z))
    ensures o + ((l1 + (l2 + l3)) + z) == (o + l1 + l2) + (l3 + z)
  {}

  lemma NoiseView(c: Cal, more: bool, rest: seq<Token>, k: Cal, s: string)
    requires |c.nums| == |k.nums| == SLOTS && Tidy(View(NOISE, NoiseBody(c), more, rest))
    requires StrStr(s, Quote(NOISE)) == Some(Render(View(NOISE, NoiseBody(c), more, rest)))
    ensures LoadNoise(s, k) == Some(WithNoise(c, k))
  {
    hide Tidy, StrStr, Render, Line, Field, Closing, Opening;
    var o, z := Opening(NOISE), Closing(more, rest);
    var l1 := Line(GYRO_DENSITY, "     ", c, GYRO_DENSITY_AT, ",\n");
    var l2 := Line(GYRO_INSTABILITY, " ", c, GYRO_INSTABILITY_AT, ",\n");
    var l3 := Line(ACCEL_DENSITY, "    ", c, ACCEL_DENSITY_AT, "\n");
    ThreeLines(o, l1, l2, l3, z);
    OpeningKeys(NOISE, GYRO_DENSITY);
    OpeningKeys(NOISE, GYRO_INSTABILITY);
    OpeningKeys(NOISE, ACCEL_DENSITY);
    if Key(GYRO_INSTABILITY) in l1 { KeysInLine(GYRO_DENSITY, "     ", c, GYRO_DENSITY_AT, ",\n", GYRO_INSTABILITY); }
    if Key(ACCEL_DENSITY) in l1 { KeysInLine(GYRO_DENSITY, "     ", c, GYRO_DENSITY_AT, ",\n", ACCEL_DENSITY); }
    if Key(ACCEL_DENSITY) in l2 { KeysInLine(GYRO_INSTABILITY, " ", c, GYRO_INSTABILITY_AT, ",\n", ACCEL_DENSITY); }
    var n1 := Fill(k.nums, c, GYRO_DENSITY_AT, 3);
    FieldOfLine(o, GYRO_DENSITY, "     ", c, GYRO_DENSITY_AT, ",\n", l2 + (l3 + z), k.nums);
    FieldOfLine(o + l1, GYRO_INSTABILITY, " ", c, GYRO_INSTABILITY_AT, ",\n", l3 + z, n1);
    FieldOfLine(o + l1 + l2, ACCEL_DENSITY, "    ", c, ACCEL_DENSITY_AT, "\n", z, Fill(n1, c, GYRO_INSTABILITY_AT, 3));
  }

  lemma TempView(c: Cal, more: bool, rest: seq<Token>, k: Cal, s: string)
    requires |c.nums| == |k.nums| == SLOTS && Printed(c.nums[REF_AT])
    requires Tidy(View(GYRO_TEMP, TempBody(c), more, rest))
    requires StrStr(s, Quote(GYRO_TEMP)) == Some(Render(View(GYRO_TEMP, TempBody(c), more, rest)))
    ensures LoadTemp(s, k) == Some(WithTemp(c, k))
  {
    hide Tidy, StrStr, Render, Line, RefLine, Field, Reference, Closing, Opening, Printed;
    var o, z := Opening(GYRO_TEMP), Closing(more, rest);
    var l1, l2 := Line(COEFF, " ", c, COEFF_AT, ",\n"), RefLine(c);
    TwoLines(o, l1, l2, z);
    OpeningKeys(GYRO_TEMP, COEFF);
    OpeningKeys(GYRO_TEMP, REF_C);
    if Key(REF_C) in l1 { KeysInLine(COEFF, " ", c, COEFF_AT, ",\n", REF_C); }
    FieldOfLine(o, COEFF, " ", c, COEFF_AT, ",\n", l2 + z, k.nums);
    ReferenceOfLine(o + l1, c, z);
    var n1 := Fill(k.nums, c, COEFF_AT, 3);
    assert n1[REF_AT := c.nums[REF_AT]] == Fill(n1, c, REF_AT, 1);
  }

  // ---------- the whole file ----------

  function Head(): seq<Token> {
    [OpenBrace, Gap("\n")]
  }

  function BeforeGyro(c: Cal): seq<Token> requires |c.nums| == SLOTS {
    Head() + MagPart(c)
  }
  function BeforeAccel(c: Cal): seq<Token> requires |c.nums| == SLOTS {
    BeforeGyro(c) + GyroPart(c)
  }
  function BeforeNoise(c: Cal): seq<Token> requires |c.nums| == SLOTS {
    BeforeAccel(c) + AccelPart(c)
  }
  function BeforeTemp(c: Cal): seq<Token> requires |c.nums| == SLOTS {
    BeforeNoise(c) + NoisePart(c)
  }

  /** The file cut before each of its sections. */
  lemma FileCuts(c: Cal, end: string)
    requires |c.nums| == SLOTS
    ensures FileTokens(c, end) == Head() + (MagPart(c) + (FromGyro(c) + FileEnd(end)))
    ensures FileTokens(c, end) == BeforeGyro(c) + (GyroPart(c) + (FromAccel(c) + FileEnd(end)))
    ensures FileTokens(c, end) == BeforeAccel(c) + (AccelPart(c) + (FromNoise(c) + FileEnd(end)))
    ensures FileTokens(c, end) == BeforeNoise(c) + (NoisePart(c) + (FromTemp(c) + FileEnd(end)))
    ensures FileTokens(c, end) == BeforeTemp(c) + (FromTemp(c) + FileEnd(end))
  {
    hide MagPart, GyroPart, AccelPart, NoisePart, FromTemp, Section, FileEnd;
    var e := FileEnd(end);
    var m, g, a, n, t := MagPart(c), GyroPart(c), AccelPart(c), NoisePart(c), FromTemp(c);
    PartsNamed(c);
    FileNest(m + (g + (a + (n + t))), e);
    Nested(Head(), m, g, a, n, t, e);
  }

  lemma MagCut(c: Cal, end: string)
    requires |c.nums| == SLOTS && c.mag
    ensures FileTokens(c, end) == Head() + (Section(true, MAG, MagBody(c), (c.gyro || c.accel || c.noise || c.temp)) + (FromGyro(c) + FileEnd(end)))
  {
    assert MagPart(c) == Section(true, MAG, MagBody(c), (c.gyro || c.accel || c.noise || c.temp));
    hide *;
    FileCuts(c, end);
  }

  lemma GyroCut(c: Cal, end: string)
    requires |c.nums| == SLOTS && c.gyro
    ensures FileTokens(c, end) == BeforeGyro(c) + (Section(true, GYRO, GyroBody(c), (c.accel || c.noise || c.temp)) + (FromAccel(c) + FileEnd(end)))
  {
    assert GyroPart(c) == Section(true, GYRO, GyroBody(c), (c.accel || c.noise || c.temp));
    hide *;
    FileCuts(c, end);
  }

  lemma AccelCut(c: Cal, end: string)
    requires |c.nums| == SLOTS && c.accel
    ensures FileTokens(c, end) == BeforeAccel(c) + (Section(true, ACCEL, AccelBody(c), (c.noise || c.temp)) + (FromNoise(c) + FileEnd(end)))
  {
    assert AccelPart(c) == Section(true, ACCEL, AccelBody(c), (c.noise || c.temp));
    hide *;
    FileCuts(c, end);
  }

  lemma NoiseCut(c: Cal, end: string)
    requires |c.nums| == SLOTS && c.noise
    ensures FileTokens(c, end) == BeforeNoise(c) + (Section(true, NOISE, NoiseBody(c), c.temp) + (FromTemp(c) + FileEnd(end)))
  {
    assert NoisePart(c) == Section(true, NOISE, NoiseBody(c), c.temp);
    hide *;
    FileCuts(c, end);
  }

  lemma TempCut(c: Cal, end: string)
    requires |c.nums| == SLOTS && c.temp
    ensures FileTokens(c, end) == BeforeTemp(c) + (Section(true, GYRO_TEMP, TempBody(c), false) + (FileEnd(end)))
  {
    assert FromTemp(c) == Section(true, GYRO_TEMP, TempBody(c), false);
    hide *;
    FileCuts(c, end);
  }

  lemma PartsNamed(c: Cal)
    requires |c.nums| == SLOTS
    ensures Sections(c) == MagPart(c) + FromGyro(c)
    ensures FromGyro(c) == GyroPart(c) + FromAccel(c)
    ensures FromAccel(c) == AccelPart(c) + FromNoise(c)
    ensures FromNoise(c) == NoisePart(c) + FromTemp(c)
  {}

  lemma FileNest(s: seq<Token>, e: seq<Token>)
    ensures [OpenBrace] + ([Gap("\n")] + (s + e)) == Head() + (s + e)
  {}

  lemma Nested(h: seq<Token>, m: seq<Token>, g: seq<Token>, a: seq<Token>, n: seq<Token>, t: seq<Token>, e: seq<Token>)
    ensures var f := h + ((m + (g + (a + (n + t)))) + e);
            && f == h + (m + ((g + (a + (n + t))) + e))
            && f == (h + m) + (g + ((a + (n + t)) + e))
            && f == (h + m + g) + (a + ((n + t) + e))
            && f == (h + m + g + a) + (n + (t + e))
            && f == (h + m + g + a + n) + (t + e)
  {
    Assoc(m, g + (a + (n + t)), e);
    Assoc(g, a + (n + t), e);
    Assoc(a, n + t, e);
    Assoc(n, t, e);
    Assoc(h, m, g + ((a + (n + t)) + e));
    Assoc(h + m, g, a + ((n + t) + e));
    Assoc(h + m + g, a, n + (t + e));
    Assoc(h + m + g + a, n, t + e);
  }

  lemma KeysElsewhere(c: Cal, end: string, n: Name)
    requires |c.nums| == SLOTS
    requires MagKey(n) ==> !c.mag
    requires GyroKey(n) ==> !c.gyro
    requires AccelKey(n) ==> !c.accel
    requires NoiseKey(n) ==> !c.noise
    requires TempKey(n) ==> !c.temp
    ensures Key(n) !in FileTokens(c, end)
  {
    hide FileTokens, Section, MagPart, GyroPart, AccelPart, NoisePart, FromTemp;
    FileCuts(c, end);
    KeysOfParts(c, n);
  }

  lemma Absent(c: Cal, end: string, n: Name)
    requires Formed(c) && AllBlank(end)
    requires MagKey(n) ==> !c.mag
    requires GyroKey(n) ==> !c.gyro
    requires AccelKey(n) ==> !c.accel
    requires NoiseKey(n) ==> !c.noise
    requires TempKey(n) ==> !c.temp
    ensures StrStr(Render(FileTokens(c, end)), Quote(n)) == None
  {
    FileTidy(c, end);
    KeysElsewhere(c, end, n);
    hide *;
    NotFound(FileTokens(c, end), n);
  }

  /** No section's name stands before the section. */
  lemma KeysBefore(c: Cal)
    requires |c.nums| == SLOTS
    ensures Key(GYRO) !in BeforeGyro(c) && Key(ACCEL) !in BeforeAccel(c)
    ensures Key(NOISE) !in BeforeNoise(c) && Key(GYRO_TEMP) !in BeforeTemp(c)
  {
    hide MagPart, GyroPart, AccelPart, NoisePart;
    KeysOfParts(c, GYRO);
    KeysOfParts(c, ACCEL);
    KeysOfParts(c, NOISE);
    KeysOfParts(c, GYRO_TEMP);
  }

  lemma MagFound(c: Cal, end: string)
    requires Formed(c) && AllBlank(end) && c.mag
    ensures StrStr(Render(FileTokens(c, end)), Quote(MAG)) == Some(Render(View(MAG, MagBody(c), (c.gyro || c.accel || c.noise || c.temp), FromGyro(c) + FileEnd(end))))
    ensures Tidy(View(MAG, MagBody(c), (c.gyro || c.accel || c.noise || c.temp), FromGyro(c) + FileEnd(end)))
  {
    assert |c.nums| == SLOTS;
    assert Key(MAG) !in Head();
    hide *;
    FileTidy(c, end);
    MagCut(c, end);
    Found(Head(), MAG, MagBody(c), (c.gyro || c.accel || c.noise || c.temp), FromGyro(c) + FileEnd(end));
  }

  lemma MagMissing(c: Cal, end: string, k: Cal)
    requires Formed(c) && AllBlank(end) && |k.nums| == SLOTS && !c.mag
    ensures LoadMag(Render(FileTokens(c, end)), k) == Some(k)
  {
    hide Render, FileTokens, StrStr, Formed, Field, Reference;
    Absent(c, end, MAG);
  }

  lemma MagLoads(c: Cal, end: string, k: Cal)
    requires Formed(c) && AllBlank(end) && |k.nums| == SLOTS
    ensures LoadMag(Render(FileTokens(c, end)), k) == Some(if c.mag then WithMag(c, k) else k)
  {
    assert |c.nums| == SLOTS;
    hide *;
    if c.mag {
      MagFound(c, end);
      MagView(c, (c.gyro || c.accel || c.noise || c.temp), FromGyro(c) + FileEnd(end), k, Render(FileTokens(c, end)));
    } else {
      MagMissing(c, end, k);
    }
  }

  lemma GyroFound(c: Cal, end: string)
    requires Formed(c) && AllBlank(end) && c.gyro
    ensures StrStr(Render(FileTokens(c, end)), Quote(GYRO)) == Some(Render(View(GYRO, GyroBody(c), (c.accel || c.noise || c.temp), FromAccel(c) + FileEnd(end))))
    ensures Tidy(View(GYRO, GyroBody(c), (c.accel || c.noise || c.temp), FromAccel(c) + FileEnd(end)))
  {
    assert |c.nums| == SLOTS;
    hide *;
    FileTidy(c, end);
    GyroCut(c, end);
    KeysBefore(c);
    Found(BeforeGyro(c), GYRO, GyroBody(c), (c.accel || c.noise || c.temp), FromAccel(c) + FileEnd(end));
  }

  lemma GyroMissing(c: Cal, end: string, k: Cal)
    requires Formed(c) && AllBlank(end) && |k.nums| == SLOTS && !c.gyro
    ensures LoadGyro(Render(FileTokens(c, end)), k) == Some(k)
  {
    hide Render, FileTokens, StrStr, Formed, Field, Reference;
    Absent(c, end, GYRO);
  }

  lemma GyroLoads(c: Cal, end: string, k: Cal)
    requires Formed(c) && AllBlank(end) && |k.nums| == SLOTS
    ensures LoadGyro(Render(FileTokens(c, end)), k) == Some(if c.gyro then WithGyro(c, k) else k)
  {
    assert |c.nums| == SLOTS;
    hide *;
    if c.gyro {
      GyroFound(c, end);
      GyroView(c, (c.accel || c.noise || c.temp), FromAccel(c) + FileEnd(end), k, Render(FileTokens(c, end)));
    } else {
      GyroMissing(c, end, k);
    }
  }

  lemma AccelFound(c: Cal, end: string)
    requires Formed(c) && AllBlank(end) && c.accel
    ensures StrStr(Render(FileTokens(c, end)), Quote(ACCEL)) == Some(Render(View(ACCEL, AccelBody(c), (c.noise || c.temp), FromNoise(c) + FileEnd(end))))
    ensures Tidy(View(ACCEL, AccelBody(c), (c.noise || c.temp), FromNoise(c) + FileEnd(end)))
  {
    assert |c.nums| == SLOTS;
    hide *;
    FileTidy(c, end);
    AccelCut(c, end);
    KeysBefore(c);
    Found(BeforeAccel(c), ACCEL, AccelBody(c), (c.noise || c.temp), FromNoise(c) + FileEnd(end));
  }

  lemma AccelMissing(c: Cal, end: string, k: Cal)
    requires Formed(c) && AllBlank(end) && |k.nums| == SLOTS && !c.accel
    ensures LoadAccel(Render(FileTokens(c, end)), k) == Some(k)
  {
    hide Render, FileTokens, StrStr, Formed, Field, Reference;
    Absent(c, end, ACCEL);
  }

  lemma AccelLoads(c: Cal, end: string, k: Cal)
    requires Formed(c) && AllBlank(end) && |k.nums| == SLOTS
    ensures LoadAccel(Render(FileTokens(c, end)), k) == Some(if c.accel then WithAccel(c, k) else k)
  {
    assert |c.nums| == SLOTS;
    hide *;
    if c.accel {
      AccelFound(c, end);
      AccelView(c, (c.noise || c.temp), FromNoise(c) + FileEnd(end), k, Render(FileTokens(c, end)));
    } else {
      AccelMissing(c, end, k);
    }
  }

  lemma NoiseFound(c: Cal, end: string)
    requires Formed(c) && AllBlank(end) && c.noise
    ensures StrStr(Render(FileTokens(c, end)), Quote(NOISE)) == Some(Render(View(NOISE, NoiseBody(c), c.temp, FromTemp(c) + FileEnd(end))))
    ensures Tidy(View(NOISE, NoiseBody(c), c.temp, FromTemp(c) + FileEnd(end)))
  {
    assert |c.nums| == SLOTS;
    hide *;
    FileTidy(c, end);
    NoiseCut(c, end);
    KeysBefore(c);
    Found(BeforeNoise(c), NOISE, NoiseBody(c), c.temp, FromTemp(c) + FileEnd(end));
  }

  lemma NoiseMissing(c: Cal, end: string, k: Cal)
    requires Formed(c) && AllBlank(end) && |k.nums| == SLOTS && !c.noise
    ensures LoadNoise(Render(FileTokens(c, end)), k) == Some(k)
  {
    hide Render, FileTokens, StrStr, Formed, Field, Reference;
    Absent(c, end, NOISE);
  }

  lemma NoiseLoads(c: Cal, end: string, k: Cal)
    requires Formed(c) && AllBlank(end) && |k.nums| == SLOTS
    ensures LoadNoise(Render(FileTokens(c, end)), k) == Some(if c.noise then WithNoise(c, k) else k)
  {
    assert |c.nums| == SLOTS;
    hide *;
    if c.noise {
      NoiseFound(c, end);
      NoiseView(c, c.temp, FromTemp(c) + FileEnd(end), k, Render(FileTokens(c, end)));
    } else {
      NoiseMissing(c, end, k);
    }
  }

  lemma TempFound(c: Cal, end: string)
    requires Formed(c) && AllBlank(end) && c.temp
    ensures StrStr(Render(FileTokens(c, end)), Quote(GYRO_TEMP)) == Some(Render(View(GYRO_TEMP, TempBody(c), false, FileEnd(end))))
    ensures Tidy(View(GYRO_TEMP, TempBody(c), false, FileEnd(end)))
  {
    assert |c.nums| == SLOTS;
    hide *;
    FileTidy(c, end);
    TempCut(c, end);
    KeysBefore(c);
    Found(BeforeTemp(c), GYRO_TEMP, TempBody(c), false, FileEnd(end));
  }

  lemma TempMissing(c: Cal, end: string, k: Cal)
    requires Formed(c) && AllBlank(end) && |k.nums| == SLOTS && !c.temp
    ensures LoadTemp(Render(FileTokens(c, end)), k) == Some(k)
  {
    hide Render, FileTokens, StrStr, Formed, Field, Reference;
    Absent(c, end, GYRO_TEMP);
  }

  lemma TempLoads(c: Cal, end: string, k: Cal)
    requires Formed(c) && AllBlank(end) && |k.nums| == SLOTS
    ensures LoadTemp(Render(FileTokens(c, end)), k) == Some(if c.temp then WithTemp(c, k) else k)
  {
    assert |c.nums| == SLOTS && (c.temp ==> Has(c, REF_AT) && Printed(c.nums[REF_AT]));
    hide *;
    if c.temp {
      TempFound(c, end);
      TempView(c, false, FileEnd(end), k, Render(FileTokens(c, end)));
    } else {
      TempMissing(c, end, k);
    }
  }

  lemma Chain(s: string, k1: Cal, k2: Cal, k3: Cal, k4: Cal, k5: Cal)
    requires |k1.nums| == |k2.nums| == |k3.nums| == |k4.nums| == SLOTS
    requires LoadMag(s, BLANK_CAL) == Some(k1) && LoadAccel(s, k1) == Some(k2) && LoadGyro(s, k2) == Some(k3)
    requires LoadNoise(s, k3) == Some(k4) && LoadTemp(s, k4) == Some(k5)
    ensures LoadSections(s) == Some(k5)
  {
    hide LoadMag, LoadAccel, LoadGyro, LoadNoise, LoadTemp, Identity;
  }

  lemma StagesLoad(c: Cal, end: string, k0: Cal, k1: Cal, k2: Cal, k3: Cal, k4: Cal, k5: Cal)
    requires Formed(c) && AllBlank(end)
    requires |c.nums| == |k0.nums| == |k1.nums| == |k2.nums| == |k3.nums| == |k4.nums| == SLOTS
    requires k0 == BLANK_CAL
    requires k1 == if c.mag then WithMag(c, k0) else k0
    requires k2 == if c.accel then WithAccel(c, k1) else k1
    requires k3 == if c.gyro then WithGyro(c, k2) else k2
    requires k4 == if c.noise then WithNoise(c, k3) else k3
    requires k5 == if c.temp then WithTemp(c, k4) else k4
    ensures LoadSections(Render(FileTokens(c, end))) == Some(k5)
  {
    hide *;
    MagLoads(c, end, k0);
    AccelLoads(c, end, k1);
    GyroLoads(c, end, k2);
    NoiseLoads(c, end, k3);
    TempLoads(c, end, k4);
    Chain(Render(FileTokens(c, end)), k1, k2, k3, k4, k5);
  }

  lemma StagesEnd(c: Cal, k0: Cal, k1: Cal, k2: Cal, k3: Cal, k4: Cal, k5: Cal)
    requires |c.nums| == |k0.nums| == |k1.nums| == |k2.nums| == |k3.nums| == |k4.nums| == SLOTS
    requires k0 == BLANK_CAL
    requires k1 == if c.mag then WithMag(c, k0) else k0
    requires k2 == if c.accel then WithAccel(c, k1) else k1
    requires k3 == if c.gyro then WithGyro(c, k2) else k2
    requires k4 == if c.noise then WithNoise(c, k3) else k3
    requires k5 == if c.temp then WithTemp(c, k4) else k4
    ensures k5 == Kept(c)
  {
    hide Kept, Identity, Fill;
    KeptAt(c);
    KeptFlags(c);
    assert k5.nums == Kept(c).nums;
  }

  /** Section by section, the file gives back exactly what was present. */
  lemma SectionsLoad(c: Cal, end: string)
    requires Formed(c) && AllBlank(end)
    ensures LoadSections(Render(FileTokens(c, end))) == Some(Kept(c))
  {
    assert |c.nums| == SLOTS;
    assert |BLANK_CAL.nums| == SLOTS;
    hide *;
    var k0 := BLANK_CAL;
    var k1 := if c.mag then WithMag(c, k0) else k0;
    var k2 := if c.accel then WithAccel(c, k1) else k1;
    var k3 := if c.gyro then WithGyro(c, k2) else k2;
    var k4 := if c.noise then WithNoise(c, k3) else k3;
    var k5 := if c.temp then WithTemp(c, k4) else k4;
    StagesLoad(c, end, k0, k1, k2, k3, k4, k5);
    StagesEnd(c, k0, k1, k2, k3, k4, k5);
  }

  lemma KeptFlags(c: Cal)
    requires |c.nums| == SLOTS
    ensures Kept(c) == c.(nums := Kept(c).nums)
  {}

  /** Parsing a written text, with or without the newline after the last brace. */
  lemma ParseWritten(c: Cal, end: string)
    requires Formed(c) && AllBlank(end)
    ensures Parse(Render(FileTokens(c, end))) == if Usable(c, true) then Loaded(Kept(c)) else Refused
  {
    assert |c.nums| == SLOTS;
    hide Closed, LoadSections, Usable, FileTokens, Render, Formed;
    FileClosed(c, end);
    SectionsLoad(c, end);
    GuardsAgree(c);
  }

  // ---------- the bytes on disk ----------

  lemma {:induction false} CStringOfPlain(s: string)
    requires '\0' !in s
    ensures CString(s) == s
  {
    if s != "" { CStringOfPlain(s[1..]); }
  }

  lemma TextPlain(c: Cal)
    requires Formed(c)
    ensures '\0' !in Text(c)
  {
    FileTidy(c, "\n");
    NoNul(FileTokens(c, "\n"));
  }
}
