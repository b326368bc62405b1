/**
 The calibration file on disk: cal_write's prints and its rename, cal_load's scanners
 filling the caller's record, and what a reload of a written or cut file gives.
 */
module CalFile {
  import opened JsonScan
  import opened CalJson
  import R = CalRoundTrip

  // ---------- the written text fits the loader's buffer ----------

  lemma {:induction false} ShortTokens(ts: seq<Token>, k: nat)
    requires forall i :: 0 <= i < |ts| ==> |Show(ts[i])| <= k
    ensures |Render(ts)| <= k * |ts|
  {
    if ts != [] {
      ShortTokens(ts[1..], k);
      assert k * |ts| == k + k * |ts[1..]|;
    }
  }

  lemma AddedLength(a: seq<Token>, b: seq<Token>)
    ensures |Render(a + b)| == |Render(a)| + |Render(b)|
  {
    RenderAppend(a, b);
  }

  lemma KeyLength(n: Name)
    ensures |Render([Key(n)])| <= 19
  {
    SpellIsName(n);
    RenderOne(Key(n));
  }

  lemma GapLength(g: string)
    ensures |Render([Gap(g)])| == |g|
  {
    RenderOne(Gap(g));
  }

  lemma TripleLength(c: Cal, at: nat)
    requires at + 3 <= |c.nums|
    requires Printed(c.nums[at]) && Printed(c.nums[at + 1]) && Printed(c.nums[at + 2])
    ensures |Render(TripleAt(c, at))| <= 441
  {
    ShortTokens(TripleAt(c, at), 49);
  }

  lemma LineLength(n: Name, pad: string, c: Cal, at: nat, end: string)
    requires at + 3 <= |c.nums| && |pad| <= 5 && |end| <= 2
    requires Printed(c.nums[at]) && Printed(c.nums[at + 1]) && Printed(c.nums[at + 2])
    ensures |Render(Line(n, pad, c, at, end))| <= 471
  {
    hide Render, TripleAt, Printed;
    TripleLength(c, at);
    GapLength("    ");
    GapLength(pad);
    GapLength(end);
    KeyLength(n);
    AddedLength(TripleAt(c, at), [Gap(end)]);
    AddedLength([Gap(pad)], TripleAt(c, at) + [Gap(end)]);
    AddedLength([Key(n)], [Gap(pad)] + (TripleAt(c, at) + [Gap(end)]));
    AddedLength([Gap("    ")], [Key(n)] + ([Gap(pad)] + (TripleAt(c, at) + [Gap(end)])));
  }

  lemma RowLength(c: Cal, at: nat, end: string)
    requires at + 3 <= |c.nums| && |end| <= 2
    requires Printed(c.nums[at]) && Printed(c.nums[at + 1]) && Printed(c.nums[at + 2])
    ensures |Render(Row(c, at, end))| <= 449
  {
    hide Render, TripleAt, Printed;
    TripleLength(c, at);
    GapLength("      ");
    GapLength(end);
    AddedLength(TripleAt(c, at), [Gap(end)]);
    AddedLength([Gap("      ")], TripleAt(c, at) + [Gap(end)]);
  }

  lemma SoftLength(c: Cal)
    requires Formed(c) && c.mag
    ensures |Render(SoftLines(c))| <= 1500
  {
    hide Render, Row, Printed;
    var r1, r2, r3 := Row(c, SOFT_AT, ",\n"), Row(c, SOFT_AT + 3, ",\n"), Row(c, SOFT_AT + 6, "\n");
    RowLength(c, SOFT_AT, ",\n");
    RowLength(c, SOFT_AT + 3, ",\n");
    RowLength(c, SOFT_AT + 6, "\n");
    ShortTokens([Gap("    "), CloseBracket], 4);
    ShortTokens([Gap(" "), OpenBracket, Gap("\n")], 1);
    GapLength("\n");
    GapLength("    ");
    KeyLength(SOFT_IRON);
    AddedLength(r3, [Gap("    "), CloseBracket]);
    AddedLength(r2, r3 + [Gap("    "), CloseBracket]);
    AddedLength(r1, r2 + (r3 + [Gap("    "), CloseBracket]));
    AddedLength([Gap(" "), OpenBracket, Gap("\n")], r1 + (r2 + (r3 + [Gap("    "), CloseBracket])));
    AddedLength(SoftBlock(c), [Gap("\n")]);
    AddedLength([Key(SOFT_IRON)], SoftBlock(c) + [Gap("\n")]);
    AddedLength([Gap("    ")], [Key(SOFT_IRON)] + (SoftBlock(c) + [Gap("\n")]));
  }

  lemma RefLength(c: Cal)
    requires |c.nums| == SLOTS && Printed(c.nums[REF_AT])
    ensures |Render(RefLine(c))| <= 171
  {
    hide Render;
    var tail := [Gap(" "), Num(c.nums[REF_AT]), Gap("\n")];
    ShortTokens(tail, 49);
    KeyLength(REF_C);
    GapLength("    ");
    AddedLength([Key(REF_C)], tail);
    AddedLength([Gap("    ")], [Key(REF_C)] + tail);
  }

  lemma BodyLengths(c: Cal)
    requires Formed(c)
    ensures c.mag ==> |Render(MagBody(c))| <= 1971
    ensures c.gyro ==> |Render(GyroBody(c))| <= 471
    ensures c.accel ==> |Render(AccelBody(c))| <= 942
    ensures c.noise ==> |Render(NoiseBody(c))| <= 1413
    ensures c.temp ==> |Render(TempBody(c))| <= 642
  {
    hide Render, Line, SoftLines, RefLine, Printed;
    if c.mag {
      LineLength(HARD_IRON, " ", c, HARD_AT, ",\n");
      SoftLength(c);
      AddedLength(Line(HARD_IRON, " ", c, HARD_AT, ",\n"), SoftLines(c));
    }
    if c.gyro { LineLength(BIAS, " ", c, BIAS_AT, "\n"); }
    if c.accel {
      LineLength(OFFSET, " ", c, OFFSET_AT, ",\n");
      LineLength(SCALE, "  ", c, SCALE_AT, "\n");
      AddedLength(Line(OFFSET, " ", c, OFFSET_AT, ",\n"), Line(SCALE, "  ", c, SCALE_AT, "\n"));
    }
    if c.noise { NoiseLength(c); }
    if c.temp {
      LineLength(COEFF, " ", c, COEFF_AT, ",\n");
      RefLength(c);
      AddedLength(Line(COEFF, " ", c, COEFF_AT, ",\n"), RefLine(c));
    }
  }

  lemma NoiseLength(c: Cal)
    requires Formed(c) && c.noise
    ensures |Render(NoiseBody(c))| <= 1413
  {
    hide Render, Line, Printed;
    var l1 := Line(GYRO_DENSITY, "     ", c, GYRO_DENSITY_AT, ",\n");
    var l2 := Line(GYRO_INSTABILITY, " ", c, GYRO_INSTABILITY_AT, ",\n");
    var l3 := Line(ACCEL_DENSITY, "    ", c, ACCEL_DENSITY_AT, "\n");
    LineLength(GYRO_DENSITY, "     ", c, GYRO_DENSITY_AT, ",\n");
    LineLength(GYRO_INSTABILITY, " ", c, GYRO_INSTABILITY_AT, ",\n");
    LineLength(ACCEL_DENSITY, "    ", c, ACCEL_DENSITY_AT, "\n");
    AddedLength(l2, l3);
    AddedLength(l1, l2 + l3);
  }

  lemma SectionLength(has: bool, n: Name, body: seq<Token>, more: bool, k: nat)
    requires has ==> |Render(body)| <= k
    ensures |Render(Section(has, n, body, more))| <= k + 50
  {
    if has {
      SectionText(n, body, more);
      SpellIsName(n);
    }
  }

  lemma TextFits(c: Cal)
    requires Formed(c)
    ensures |Text(c)| <= BUFFER
  {
    BodyLengths(c);
    R.FileText(c, "\n");
    hide Render, Section, Formed, MagBody, GyroBody, AccelBody, NoiseBody, TempBody, FileTokens;
    SectionLength(c.temp, GYRO_TEMP, TempBody(c), false, 642);
    SectionLength(c.noise, NOISE, NoiseBody(c), c.temp, 1413);
    SectionLength(c.accel, ACCEL, AccelBody(c), c.noise || c.temp, 942);
    SectionLength(c.gyro, GYRO, GyroBody(c), c.accel || c.noise || c.temp, 471);
    SectionLength(c.mag, MAG, MagBody(c), c.gyro || c.accel || c.noise || c.temp, 1971);
    AddedLength(R.NoisePart(c), FromTemp(c));
    AddedLength(R.AccelPart(c), FromNoise(c));
    AddedLength(R.GyroPart(c), FromAccel(c));
    AddedLength(R.MagPart(c), FromGyro(c));
  }

  // ---------- what a written or cut file loads as ----------

  lemma LoadPlain(s: string)
    requires '\0' !in s && |s| <= BUFFER
    ensures Load(Some(s)) == Parse(s)
  {
    hide Parse;
    R.CStringOfPlain(s);
  }

  lemma OpenRefused(s: string)
    requires !Closed(s)
    ensures Parse(s) == Refused
  {}

  /** Load undoes write: the same flags, the same printed numbers in the same slots. */
  lemma Reload(c: Cal)
    requires Formed(c)
    ensures Load(Some(Text(c))) == if Usable(c, true) then Loaded(Kept(c)) else Refused
  {
    assert |c.nums| == SLOTS && Text(c) == Render(FileTokens(c, "\n")) && AllBlank("\n");
    hide *;
    TextFits(c);
    R.TextPlain(c);
    LoadPlain(Text(c));
    R.ParseWritten(c, "\n");
  }

  lemma CutText(c: Cal, k: nat)
    requires Formed(c) && k <= |Text(c)|
    ensures Load(Some(Text(c)[..k])) == Parse(Text(c)[..k])
  {
    assert |c.nums| == SLOTS;
    hide Parse, Load, Formed, Text;
    TextFits(c);
    R.TextPlain(c);
    LoadPlain(Text(c)[..k]);
  }

  lemma CutRefused(c: Cal, k: nat)
    requires Formed(c) && k + 2 <= |Text(c)|
    ensures Load(Some(Text(c)[..k])) == Refused
  {
    assert |c.nums| == SLOTS;
    hide *;
    CutText(c, k);
    R.CutOpen(c, k);
    OpenRefused(Text(c)[..k]);
  }

  lemma CutNewline(c: Cal, k: nat)
    requires Formed(c) && Usable(c, true) && k + 1 == |Text(c)|
    ensures Load(Some(Text(c)[..k])) == Loaded(Kept(c))
  {
    assert |c.nums| == SLOTS && AllBlank("");
    hide *;
    CutText(c, k);
    WithoutNewline(c);
    R.ParseWritten(c, "");
  }

  /** A prefix of a written file loads if and only if it holds the last brace, and then loads everything. */
  lemma CutLoadsOrRefuses(c: Cal, k: nat)
    requires Formed(c) && Usable(c, true) && k <= |Text(c)|
    ensures Load(Some(Text(c)[..k])) == if k + 1 >= |Text(c)| then Loaded(Kept(c)) else Refused
  {
    hide Text, Load, Kept, Usable;
    if k + 2 <= |Text(c)| {
      CutRefused(c, k);
    } else if k + 1 == |Text(c)| {
      CutNewline(c, k);
    } else {
      assert Text(c)[..k] == Text(c);
      Reload(c);
    }
  }

  lemma WithoutNewline(c: Cal)
    requires Formed(c)
    ensures |Text(c)| >= 1 && Text(c)[..|Text(c)| - 1] == Render(FileTokens(c, ""))
  {
    R.FileText(c, "");
    R.FileText(c, "\n");
    hide Render, FileTokens, Formed, Sections;
    var whole := "{" + ("\n" + Render(Sections(c))) + "}";
    assert Text(c) == whole + "\n";
    assert whole + "" == whole;
    assert (whole + "\n")[..|whole|] == whole;
  }

  // ---------- cal_write ----------

  lemma RenderCons(t: Token, rest: seq<Token>)
    ensures Render([t] + rest) == Show(t) + Render(rest)
  {
    RenderAppend([t], rest);
    RenderOne(t);
  }

  lemma TripleText(x: string, y: string, z: string)
    ensures Render(Triple(x, y, z)) == "[ " + x + ", " + y + ", " + z + " ]"
  {
    hide Render;
    R.TripleNest(x, y, z, []);
    assert Triple(x, y, z) + [] == Triple(x, y, z);
    var r8 := [CloseBracket] + [];
    var r7 := [Gap(" ")] + r8;
    var r6 := [Num(z)] + r7;
    var r5 := [Gap(", ")] + r6;
    var r4 := [Num(y)] + r5;
    var r3 := [Gap(", ")] + r4;
    var r2 := [Num(x)] + r3;
    var r1 := [Gap(" ")] + r2;
    RenderOne(CloseBracket);
    assert r8 == [CloseBracket];
    RenderCons(Gap(" "), r8);
    RenderCons(Num(z), r7);
    RenderCons(Gap(", "), r6);
    RenderCons(Num(y), r5);
    RenderCons(Gap(", "), r4);
    RenderCons(Num(x), r3);
    RenderCons(Gap(" "), r2);
    RenderCons(OpenBracket, r1);
    TripleChars(x, y, z);
  }

  lemma TripleChars(x: string, y: string, z: string)
    ensures "[" + (" " + (x + (", " + (y + (", " + (z + (" " + "]"))))))) == "[ " + x + ", " + y + ", " + z + " ]"
  {
    assert "[" + (" " + x) == "[ " + x;
    assert " " + "]" == " ]";
  }

  lemma LineText(n: Name, pad: string, c: Cal, at: nat, end: string)
    requires at + 3 <= |c.nums|
    ensures Render(Line(n, pad, c, at, end))
         == "    " + Quote(n) + ":" + pad + ("[ " + c.nums[at] + ", " + c.nums[at + 1] + ", " + c.nums[at + 2] + " ]") + end
  {
    hide Render, Quote, Triple;
    var t := TripleAt(c, at);
    TripleText(c.nums[at], c.nums[at + 1], c.nums[at + 2]);
    RenderOne(Gap(end));
    RenderAppend(t, [Gap(end)]);
    RenderCons(Gap(pad), t + [Gap(end)]);
    RenderCons(Key(n), [Gap(pad)] + (t + [Gap(end)]));
    RenderCons(Gap("    "), [Key(n)] + ([Gap(pad)] + (t + [Gap(end)])));
    LineChars("    ", Quote(n), pad, Render(t), end);
  }

  lemma LineChars(a: string, b: string, pad: string, t: string, end: string)
    ensures a + ((b + ":") + (pad + (t + end))) == a + b + ":" + pad + t + end
  {}

  /** A section is its heading, its body and its closing line. */
  lemma SectionText(n: Name, body: seq<Token>, more: bool)
    ensures Render(Section(true, n, body, more))
         == "  " + Quote(n) + ": {\n" + Render(body) + ("  }" + (if more then "," else "") + "\n")
  {
    hide Render, Quote;
    var end := if more then ",\n" else "\n";
    var s1 := [CloseBrace] + [Gap(end)];
    var s2 := [Gap("  ")] + s1;
    var s4 := [Gap("\n")] + (body + s2);
    RenderOne(Gap(end));
    RenderCons(CloseBrace, [Gap(end)]);
    RenderCons(Gap("  "), s1);
    RenderAppend(body, s2);
    RenderCons(Gap("\n"), body + s2);
    RenderCons(OpenBrace, s4);
    RenderCons(Gap(" "), [OpenBrace] + s4);
    RenderCons(Key(n), Braced(body, end));
    RenderCons(Gap("  "), [Key(n)] + Braced(body, end));
    SectionChars(Quote(n), Render(body), end);
    assert end == (if more then "," else "") + "\n";
    assert "  }" + ((if more then "," else "") + "\n") == "  }" + (if more then "," else "") + "\n";
  }

  lemma SectionChars(q: string, body: string, end: string)
    ensures "  " + ((q + ":") + (" " + ("{" + ("\n" + (body + ("  " + ("}" + end)))))))
         == "  " + q + ": {\n" + body + ("  }" + end)
  {
    assert ":" + (" " + ("{" + "\n")) == ": {\n";
    assert "  " + ("}" + end) == "  }" + end;
  }

  /** The directory cal.json lives in. */
  class Disk {
    var cal: Option<string>
    var tmp: Option<string>
    /** cal.json as it stood after each step on the directory so far: a power cut leaves one of these. */
    ghost var seen: seq<Option<string>>

    /** cal.json has stood as it was through every step since. */
    twostate predicate Untouched()
      reads this
    {
      cal == old(cal) && old(seen) <= seen && forall k :: |old(seen)| <= k < |seen| ==> seen[k] == cal
    }

    /** fprintf to the temporary file; cal.json is not in its frame. */
    method Print(text: string)
      requires tmp.Some?
      modifies this`tmp, this`seen
      ensures Untouched()
      ensures tmp == Some(old(tmp).value + text)
    {
      tmp := Some(tmp.value + text);
      seen := seen + [cal];
    }

    method PrintLine(n: Name, pad: string, c: Cal, at: nat, end: string)
      requires tmp.Some? && at + 3 <= |c.nums|
      modifies this`tmp, this`seen
      ensures Untouched()
      ensures tmp == Some(old(tmp).value + Render(Line(n, pad, c, at, end)))
    {
      LineText(n, pad, c, at, end);
      Print("    " + Quote(n) + ":" + pad + ("[ " + c.nums[at] + ", " + c.nums[at + 1] + ", " + c.nums[at + 2] + " ]") + end);
    }

    /** The three rows of soft_iron, the last one without a comma. */
    method PrintRows(c: Cal)
      requires tmp.Some? && |c.nums| == SLOTS
      modifies this`tmp, this`seen
      ensures Untouched()
      ensures tmp == Some(old(tmp).value + RowsText(c, 3))
    {
      hide RowText, RowsText;
      ghost var was := tmp.value;
      RowsNone(c, was);
      var i := 0;
      while i < 3
        invariant 0 <= i <= 3 && tmp.Some? && Untouched()
        invariant tmp.value == was + RowsText(c, i)
      {
        var at := SOFT_AT + 3 * i;
        Print(RowText(c, at, if i < 2 then "," else ""));
        RowsNext(c, was, i);
        i := i + 1;
      }
    }

    method PrintSoft(c: Cal)
      requires tmp.Some? && |c.nums| == SLOTS
      modifies this`tmp, this`seen
      ensures Untouched()
      ensures tmp == Some(old(tmp).value + Render(SoftLines(c)))
    {
      hide Render, SoftLines, Quote, RowsText;
      SoftText(c);
      ghost var was := tmp.value;
      Print("    " + Quote(SOFT_IRON) + ": [\n");
      PrintRows(c);
      Print("    ]\n");
      Pieces(was, "    " + Quote(SOFT_IRON) + ": [\n", RowsText(c, 3), "", "", "    ]\n");
    }

    /** A section's heading. */
    method PrintOpen(n: Name)
      requires tmp.Some?
      modifies this`tmp, this`seen
      ensures Untouched()
      ensures tmp == Some(old(tmp).value + ("  " + Quote(n) + ": {\n"))
    {
      Print("  " + Quote(n) + ": {\n");
    }

    method PrintClose(more: bool)
      requires tmp.Some?
      modifies this`tmp, this`seen
      ensures Untouched()
      ensures tmp == Some(old(tmp).value + ("  }" + (if more then "," else "") + "\n"))
    {
      Print("  }" + (if more then "," else "") + "\n");
    }

    method PrintMag(c: Cal)
      requires tmp.Some? && |c.nums| == SLOTS
      modifies this`tmp, this`seen
      ensures Untouched()
      ensures tmp == Some(old(tmp).value + Render(R.MagPart(c)))
    {
      hide Render, Section, Line, SoftLines, Quote;
      var more := c.gyro || c.accel || c.noise || c.temp;
      if c.mag {
        ghost var was := tmp.value;
        PrintOpen(MAG);
        PrintLine(HARD_IRON, " ", c, HARD_AT, ",\n");
        PrintSoft(c);
        PrintClose(more);
        RenderAppend(Line(HARD_IRON, " ", c, HARD_AT, ",\n"), SoftLines(c));
        SectionText(MAG, MagBody(c), more);
        Pieces(was, "  " + Quote(MAG) + ": {\n", Render(Line(HARD_IRON, " ", c, HARD_AT, ",\n")), Render(SoftLines(c)), "",
               "  }" + (if more then "," else "") + "\n");
      } else {
        NoSection(MAG, MagBody(c), more);
      }
    }

    method PrintGyro(c: Cal)
      requires tmp.Some? && |c.nums| == SLOTS
      modifies this`tmp, this`seen
      ensures Untouched()
      ensures tmp == Some(old(tmp).value + Render(R.GyroPart(c)))
    {
      hide Render, Section, Line, Quote;
      var more := c.accel || c.noise || c.temp;
      if c.gyro {
        ghost var was := tmp.value;
        PrintOpen(GYRO);
        PrintLine(BIAS, " ", c, BIAS_AT, "\n");
        PrintClose(more);
        SectionText(GYRO, GyroBody(c), more);
        Pieces(was, "  " + Quote(GYRO) + ": {\n", Render(GyroBody(c)), "", "",
               "  }" + (if more then "," else "") + "\n");
      } else {
        NoSection(GYRO, GyroBody(c), more);
      }
    }

    method PrintAccel(c: Cal)
      requires tmp.Some? && |c.nums| == SLOTS
      modifies this`tmp, this`seen
      ensures Untouched()
      ensures tmp == Some(old(tmp).value + Render(R.AccelPart(c)))
    {
      hide Render, Section, Line, Quote;
      var more := c.noise || c.temp;
      if c.accel {
        ghost var was := tmp.value;
        PrintOpen(ACCEL);
        PrintLine(OFFSET, " ", c, OFFSET_AT, ",\n");
        PrintLine(SCALE, "  ", c, SCALE_AT, "\n");
        PrintClose(more);
        RenderAppend(Line(OFFSET, " ", c, OFFSET_AT, ",\n"), Line(SCALE, "  ", c, SCALE_AT, "\n"));
        SectionText(ACCEL, AccelBody(c), more);
        Pieces(was, "  " + Quote(ACCEL) + ": {\n", Render(Line(OFFSET, " ", c, OFFSET_AT, ",\n")),
               Render(Line(SCALE, "  ", c, SCALE_AT, "\n")), "", "  }" + (if more then "," else "") + "\n");
      } else {
        NoSection(ACCEL, AccelBody(c), more);
      }
    }

    method PrintNoise(c: Cal)
      requires tmp.Some? && |c.nums| == SLOTS
      modifies this`tmp, this`seen
      ensures Untouched()
      ensures tmp == Some(old(tmp).value + Render(R.NoisePart(c)))
    {
      hide Render, Section, Line, Quote;
      if c.noise {
        ghost var was := tmp.value;
        ghost var l1 := Line(GYRO_DENSITY, "     ", c, GYRO_DENSITY_AT, ",\n");
        ghost var l2 := Line(GYRO_INSTABILITY, " ", c, GYRO_INSTABILITY_AT, ",\n");
        ghost var l3 := Line(ACCEL_DENSITY, "    ", c, ACCEL_DENSITY_AT, "\n");
        PrintOpen(NOISE);
        PrintLine(GYRO_DENSITY, "     ", c, GYRO_DENSITY_AT, ",\n");
        PrintLine(GYRO_INSTABILITY, " ", c, GYRO_INSTABILITY_AT, ",\n");
        PrintLine(ACCEL_DENSITY, "    ", c, ACCEL_DENSITY_AT, "\n");
        PrintClose(c.temp);
        RenderAppend(l2, l3);
        RenderAppend(l1, l2 + l3);
        SectionText(NOISE, NoiseBody(c), c.temp);
        Pieces(was, "  " + Quote(NOISE) + ": {\n", Render(l1), Render(l2), Render(l3),
               "  }" + (if c.temp then "," else "") + "\n");
      } else {
        NoSection(NOISE, NoiseBody(c), c.temp);
      }
    }

    method PrintTemp(c: Cal)
      requires tmp.Some? && |c.nums| == SLOTS
      modifies this`tmp, this`seen
      ensures Untouched()
      ensures tmp == Some(old(tmp).value + Render(FromTemp(c)))
    {
      hide Render, Section, Line, RefLine, Quote;
      if c.temp {
        ghost var was := tmp.value;
        PrintOpen(GYRO_TEMP);
        PrintLine(COEFF, " ", c, COEFF_AT, ",\n");
        RefText(c);
        Print("    " + Quote(REF_C) + ": " + c.nums[REF_AT] + "\n");
        PrintClose(false);
        RenderAppend(Line(COEFF, " ", c, COEFF_AT, ",\n"), RefLine(c));
        SectionText(GYRO_TEMP, TempBody(c), false);
        Pieces(was, "  " + Quote(GYRO_TEMP) + ": {\n", Render(Line(COEFF, " ", c, COEFF_AT, ",\n")),
               Render(RefLine(c)), "", "  }" + (if false then "," else "") + "\n");
      } else {
        NoSection(GYRO_TEMP, TempBody(c), false);
      }
    }

    /** Everything cal_write prints between creating the temporary file and syncing it. */
    method PrintAll(c: Cal)
      requires tmp == Some("") && |c.nums| == SLOTS
      modifies this`tmp, this`seen
      ensures Untouched()
      ensures tmp == Some(Text(c))
    {
      hide Render, Section, FileTokens, R.MagPart, R.GyroPart, R.AccelPart, R.NoisePart, FromTemp;
      Print("{\n");
      PrintMag(c);
      PrintGyro(c);
      PrintAccel(c);
      PrintNoise(c);
      PrintTemp(c);
      Print("}\n");
      PartsText(c);
      assert "" + "{\n" == "{\n";
    }

    /**
     * cal_write.  `opens`, `saves` and `renames` say whether the file could be created,
     * written and synced, and renamed; cal.json itself is only ever replaced whole.
     */
    method CalWrite(c: Cal, opens: bool, saves: bool, renames: bool) returns (code: int)
      requires |c.nums| == SLOTS
      modifies this
      ensures code == if Usable(c, true) && opens && saves && renames then 0 else -1
      ensures cal == if code == 0 then Some(Text(c)) else old(cal)
      ensures Usable(c, true) && opens ==> tmp == None
      ensures !(Usable(c, true) && opens) ==> tmp == old(tmp)
      ensures old(seen) <= seen
      ensures forall k :: |old(seen)| <= k < |seen| ==> seen[k] == old(cal) || (code == 0 && seen[k] == Some(Text(c)))
    {
      hide Text, Usable;
      var usable := Guarded(c, true);
      if !usable { return -1; }
      if !opens { return -1; }
      tmp := Some("");
      seen := seen + [cal];
      PrintAll(c);
      if saves && renames {
        cal, tmp := tmp, None;
        seen := seen + [cal];
        return 0;
      }
      tmp := None;
      seen := seen + [cal];
      return -1;
    }
  }

  function RowText(c: Cal, at: nat, comma: string): string
    requires at + 3 <= |c.nums|
  {
    "      [ " + c.nums[at] + ", " + c.nums[at + 1] + ", " + c.nums[at + 2] + " ]" + comma + "\n"
  }

  function RowsText(c: Cal, i: nat): string
    requires |c.nums| == SLOTS && i <= 3
  {
    if i == 0 then "" else RowsText(c, i - 1) + RowText(c, SOFT_AT + 3 * (i - 1), if i < 3 then "," else "")
  }

  lemma RowsNone(c: Cal, was: string)
    requires |c.nums| == SLOTS
    ensures was == was + RowsText(c, 0)
  {}

  lemma RowsNext(c: Cal, was: string, i: nat)
    requires |c.nums| == SLOTS && i < 3
    ensures was + RowsText(c, i + 1) == (was + RowsText(c, i)) + RowText(c, SOFT_AT + 3 * i, if i < 2 then "," else "")
  {
    hide RowText;
  }

  lemma RowIsText(c: Cal, at: nat, comma: string)
    requires at + 3 <= |c.nums|
    ensures Render(Row(c, at, comma + "\n")) == RowText(c, at, comma)
  {
    hide Render, Triple;
    var t := TripleAt(c, at);
    TripleText(c.nums[at], c.nums[at + 1], c.nums[at + 2]);
    RenderOne(Gap(comma + "\n"));
    RenderAppend(t, [Gap(comma + "\n")]);
    RenderCons(Gap("      "), t + [Gap(comma + "\n")]);
    RowChars(c.nums[at], c.nums[at + 1], c.nums[at + 2], comma);
  }

  lemma RowChars(x: string, y: string, z: string, comma: string)
    ensures "      " + (("[ " + x + ", " + y + ", " + z + " ]") + (comma + "\n"))
         == "      [ " + x + ", " + y + ", " + z + " ]" + comma + "\n"
  {
    assert "      " + "[ " == "      [ ";
  }

  lemma SoftText(c: Cal)
    requires |c.nums| == SLOTS
    ensures Render(SoftLines(c)) == "    " + Quote(SOFT_IRON) + ": [\n" + RowsText(c, 3) + "    ]\n"
  {
    hide Render, Row, RowText, Quote;
    assert "," + "\n" == ",\n" && "" + "\n" == "\n";
    RowIsText(c, SOFT_AT, ",");
    RowIsText(c, SOFT_AT + 3, ",");
    RowIsText(c, SOFT_AT + 6, "");
    var r5 := [Gap("    ")] + ([CloseBracket] + [Gap("\n")]);
    var r4 := Row(c, SOFT_AT + 6, "\n") + r5;
    var r3 := Row(c, SOFT_AT + 3, ",\n") + r4;
    var r2 := Row(c, SOFT_AT, ",\n") + r3;
    var r1 := [Gap("\n")] + r2;
    var r0 := [OpenBracket] + r1;
    R.SoftNest(c, [Gap("\n")]);
    RenderOne(Gap("\n"));
    RenderCons(CloseBracket, [Gap("\n")]);
    RenderCons(Gap("    "), [CloseBracket] + [Gap("\n")]);
    RenderAppend(Row(c, SOFT_AT + 6, "\n"), r5);
    RenderAppend(Row(c, SOFT_AT + 3, ",\n"), r4);
    RenderAppend(Row(c, SOFT_AT, ",\n"), r3);
    RenderCons(Gap("\n"), r2);
    RenderCons(OpenBracket, r1);
    RenderCons(Gap(" "), r0);
    RenderCons(Key(SOFT_IRON), [Gap(" ")] + r0);
    RenderCons(Gap("    "), [Key(SOFT_IRON)] + ([Gap(" ")] + r0));
    RowsUnrolled(c);
    SoftChars(Quote(SOFT_IRON), RowText(c, SOFT_AT, ","), RowText(c, SOFT_AT + 3, ","), RowText(c, SOFT_AT + 6, ""));
  }

  lemma RowsUnrolled(c: Cal)
    requires |c.nums| == SLOTS
    ensures RowsText(c, 3) == RowText(c, SOFT_AT, ",") + RowText(c, SOFT_AT + 3, ",") + RowText(c, SOFT_AT + 6, "")
  {
    hide RowText;
    assert RowsText(c, 0) == "";
    assert RowsText(c, 1) == RowText(c, SOFT_AT, ",");
  }

  lemma SoftChars(q: string, a: string, b: string, d: string)
    ensures "    " + ((q + ":") + (" " + ("[" + ("\n" + (a + (b + (d + ("    " + ("]" + "\n")))))))))
         == "    " + q + ": [\n" + (a + b + d) + "    ]\n"
  {
    assert ":" + (" " + ("[" + "\n")) == ": [\n";
    assert "    " + ("]" + "\n") == "    ]\n";
  }

  lemma RefText(c: Cal)
    requires |c.nums| == SLOTS
    ensures Render(RefLine(c)) == "    " + Quote(REF_C) + ": " + c.nums[REF_AT] + "\n"
  {
    hide Render, Quote;
    var t := c.nums[REF_AT];
    assert [Gap(" "), Num(t), Gap("\n")] == [Gap(" ")] + ([Num(t)] + [Gap("\n")]);
    RenderOne(Gap("\n"));
    RenderCons(Num(t), [Gap("\n")]);
    RenderCons(Gap(" "), [Num(t)] + [Gap("\n")]);
    RenderCons(Key(REF_C), [Gap(" "), Num(t), Gap("\n")]);
    RenderCons(Gap("    "), [Key(REF_C)] + [Gap(" "), Num(t), Gap("\n")]);
    assert ":" + " " == ": ";
    assert "    " + ((Quote(REF_C) + ":") + (" " + (t + "\n"))) == "    " + Quote(REF_C) + (":" + " ") + t + "\n";
  }

  /** Printing piece after piece is printing their concatenation. */
  lemma Pieces(was: string, a: string, b: string, c: string, d: string, e: string)
    ensures was + a + b + c + d + e == was + (a + (b + (c + d)) + e)
    ensures d == "" ==> was + a + b + c + e == was + (a + (b + c) + e)
    ensures c == "" && d == "" ==> was + a + b + e == was + (a + b + e)
  {}

  lemma NoSection(n: Name, body: seq<Token>, more: bool)
    ensures Render(Section(false, n, body, more)) == ""
    ensures forall was: string :: was + "" == was
  {}

  /** The whole text is the brace lines around the five parts. */
  lemma PartsText(c: Cal)
    requires |c.nums| == SLOTS
    ensures Text(c) == "{\n" + Render(R.MagPart(c)) + Render(R.GyroPart(c)) + Render(R.AccelPart(c))
                     + Render(R.NoisePart(c)) + Render(FromTemp(c)) + "}\n"
  {
    hide Render, Section, R.MagPart, R.GyroPart, R.AccelPart, R.NoisePart, FromTemp;
    R.PartsNamed(c);
    R.FileRendered(Sections(c), "\n");
    RenderAppend(R.NoisePart(c), FromTemp(c));
    RenderAppend(R.AccelPart(c), FromNoise(c));
    RenderAppend(R.GyroPart(c), FromAccel(c));
    RenderAppend(R.MagPart(c), FromGyro(c));
    PartsChars(Render(R.MagPart(c)), Render(R.GyroPart(c)), Render(R.AccelPart(c)), Render(R.NoisePart(c)), Render(FromTemp(c)));
  }

  lemma PartsChars(m: string, g: string, a: string, n: string, t: string)
    ensures "{" + ("\n" + (m + (g + (a + (n + t))))) + "}" + "\n" == "{\n" + m + g + a + n + t + "}\n"
  {
    assert "{" + "\n" == "{\n" && "}" + "\n" == "}\n";
  }

  /** Both guards over the record, as cal_write (gated) and cal_load (not gated) call them. */
  method Guarded(c: Cal, gated: bool) returns (ok: bool)
    requires |c.nums| == SLOTS
    ensures ok <==> Usable(c, gated)
  {
    hide Number, Survives;
    var i := 0;
    while i < SLOTS
      invariant 0 <= i <= SLOTS
      invariant forall j :: 0 <= j < i && (gated ==> Has(c, j)) ==> Number(c.nums, j).Fin?
    {
      if (gated ==> Has(c, i)) && !Number(c.nums, i).Fin? { return false; }
      i := i + 1;
    }
    var probes := [Fin(0.0), Fin(1000.0), Fin(-1000.0)];
    var p := 0;
    while p < 3
      invariant 0 <= p <= 3
      invariant forall j :: 0 <= j < p ==> Survives(c, gated, probes[j])
    {
      ok := SurvivesProbe(c, gated, probes[p]);
      if !ok { return false; }
      p := p + 1;
    }
    assert Survives(c, gated, probes[0]) && Survives(c, gated, probes[1]) && Survives(c, gated, probes[2]);
    return true;
  }

  /** The body of cal_first_overflowing's loop over probes: each section's correction, axis by axis. */
  method SurvivesProbe(c: Cal, gated: bool, v: Float) returns (ok: bool)
    requires |c.nums| == SLOTS
    ensures ok <==> Survives(c, gated, v)
  {
    hide Number, FPlus, FMinus, FTimes;
    if !gated || c.mag {
      ok := MagProbe(c.nums, v);
      if !ok { return; }
    }
    if !gated || c.accel {
      for i := 0 to 3
        invariant forall j: nat :: j < i ==> AxisFits(c.nums, j, v)
      {
        if !FTimes(FMinus(v, Number(c.nums, OFFSET_AT + i)), Number(c.nums, SCALE_AT + i)).Fin? {
          assert !AxisFits(c.nums, i, v);
          return false;
        }
      }
    }
    if !gated || c.temp {
      var dT := FMinus(v, Number(c.nums, REF_AT));
      for i := 0 to 3
        invariant forall j: nat :: j < i ==> DriftFits(c.nums, j, v)
      {
        if !FMinus(v, FTimes(Number(c.nums, COEFF_AT + i), dT)).Fin? {
          assert !DriftFits(c.nums, i, v);
          return false;
        }
      }
    }
    ok := true;
  }

  /** The magnetometer part: the offsets first, then a row at a time. */
  method MagProbe(nums: seq<string>, v: Float) returns (ok: bool)
    requires |nums| == SLOTS
    ensures ok <==> MagFits(nums, v)
  {
    hide Number, FPlus, FMinus, FTimes;
    var tmp := new Float[3](i => NonFinite);
    for i := 0 to 3
      invariant forall j :: 0 <= j < i ==> tmp[j] == FMinus(v, Number(nums, HARD_AT + j))
    {
      tmp[i] := FMinus(v, Number(nums, HARD_AT + i));
    }
    for i := 0 to 3
      invariant forall j: nat :: j < i ==> RowFits(nums, j, v)
    {
      var at := SOFT_AT + 3 * i;
      var f := FPlus(FPlus(FTimes(Number(nums, at), tmp[0]), FTimes(Number(nums, at + 1), tmp[1])),
                     FTimes(Number(nums, at + 2), tmp[2]));
      if !f.Fin? {
        assert !RowFits(nums, i, v);
        return false;
      }
    }
    ok := true;
  }

  // ---------- cal_load ----------

  /** json_object_closed. */
  method JsonObjectClosed(s: string) returns (closed: bool)
    ensures closed <==> Closed(s)
  {
    var depth, any, i := 0, false, 0;
    while i < |s|
      invariant 0 <= i <= |s|
      invariant depth == Depth(s[..i]) && depth >= 0
      invariant forall k :: 0 <= k <= i ==> Depth(s[..k]) >= 0
      invariant any <==> '{' in s[..i]
    {
      assert s[..i + 1][..i] == s[..i];
      assert s[..i + 1] == s[..i] + [s[i]];
      if s[i] == '{' {
        depth, any := depth + 1, true;
      } else if s[i] == '}' {
        depth := depth - 1;
        if depth < 0 {
          assert Depth(s[..i + 1]) < 0;
          return false;
        }
      }
      i := i + 1;
    }
    assert s[..|s|] == s;
    return any && depth == 0;
  }

  /**
   * parse_float_array: the count, or -1 for a block that never closes or holds something
   * else.  The first n numbers go to out[at..at + n] as they are met.
   */
  method ParseFloatArray(s: string, from: nat, out: array<string>, at: nat, n: nat) returns (count: int)
    requires from <= |s| && at + n <= out.Length
    modifies out
    ensures count == match ParseArray(s[from..]) { case None => -1 case Some(g) => |g| }
    ensures count == n ==> ParseArray(s[from..]).Some? && out[..] == Put(old(out[..]), at, ParseArray(s[from..]).value)
  {
    hide Scan, Strtof, StrChr, Filled;
    FilledNothing(out[..], at, n);
    var open := StrChr(s[from..], '[');
    if open.None? { return -1; }
    var p := |s| - |open.value|;
    var depth := 0;
    count := 0;
    ghost var got: seq<string> := [];
    assert s[p..] == open.value;
    while true
      invariant p <= |s| && count == |got|
      invariant Scan(s[p..], depth, got) == ParseArray(s[from..])
      invariant Filled(out[..], old(out[..]), at, n, got)
      decreases |s| - p
    {
      p := SkipBlanks(s, p, depth, got);
      if p == |s| {
        ScanEnd(depth, got);
        assert s[p..] == "";
        return -1;
      }
      Steps(s, p, depth, got);
      if s[p] == '[' {
        depth, p := depth + 1, p + 1;
      } else if s[p] == ']' {
        p, depth := p + 1, depth - 1;
        if depth == 0 {
          FilledEnds(out[..], old(out[..]), at, n, got);
          return;
        }
      } else {
        var r := Strtof(s[p..]);
        if r.None? { return -1; }
        Store(out, old(out[..]), at, n, count, got, r.value.text);
        got := got + [r.value.text];
        count := count + 1;
        p := p + r.value.used;
      }
    }
  }

  /** The inner loop over white space and commas. */
  method SkipBlanks(s: string, from: nat, ghost depth: int, ghost got: seq<string>) returns (p: nat)
    requires from <= |s|
    ensures from <= p <= |s| && Scan(s[p..], depth, got) == Scan(s[from..], depth, got)
    ensures p < |s| ==> !Blank(s[p])
  {
    p := from;
    while p < |s| && Blank(s[p])
      invariant from <= p <= |s|
      invariant Scan(s[p..], depth, got) == Scan(s[from..], depth, got)
    {
      assert s[p..][1..] == s[p + 1..];
      p := p + 1;
    }
  }

  lemma ScanEnd(depth: int, got: seq<string>)
    ensures Scan("", depth, got) == None
  {}

  /** One turn of the scanner at a character that is not blank. */
  lemma Steps(s: string, p: nat, depth: int, got: seq<string>)
    requires p < |s| && !Blank(s[p])
    ensures s[p] == '[' ==> Scan(s[p..], depth, got) == Scan(s[p + 1..], depth + 1, got)
    ensures s[p] == ']' && depth == 1 ==> Scan(s[p..], depth, got) == Some(got)
    ensures s[p] == ']' && depth != 1 ==> Scan(s[p..], depth, got) == Scan(s[p + 1..], depth - 1, got)
    ensures s[p] != '[' && s[p] != ']' ==>
      match Strtof(s[p..])
      case None => Scan(s[p..], depth, got) == None
      case Some(r) => Scan(s[p..], depth, got) == Scan(s[p + r.used..], depth, got + [r.text])
  {
    hide Strtof;
    assert s[p..][1..] == s[p + 1..];
    if s[p] != '[' && s[p] != ']' && Strtof(s[p..]).Some? {
      var r := Strtof(s[p..]).value;
      assert s[p..][r.used..] == s[p + r.used..];
    }
  }

  /** `if (count < n) out[count] = v`. */
  method Store(out: array<string>, ghost was: seq<string>, at: nat, n: nat, count: nat, ghost got: seq<string>, text: string)
    requires count == |got| && Filled(out[..], was, at, n, got)
    modifies out
    ensures Filled(out[..], was, at, n, got + [text])
  {
    if count < n { out[at + count] := text; }
  }

  /** The numbers read so far, up to n of them, over what was there. */
  predicate Filled(now: seq<string>, was: seq<string>, at: nat, n: nat, got: seq<string>) {
    && |now| == |was| && at + n <= |now|
    && (forall i :: 0 <= i < |now| ==> now[i] == if at <= i < at + n && i - at < |got| then got[i - at] else was[i])
  }

  lemma FilledNothing(was: seq<string>, at: nat, n: nat)
    requires at + n <= |was|
    ensures Filled(was, was, at, n, [])
  {}

  lemma FilledEnds(now: seq<string>, was: seq<string>, at: nat, n: nat, got: seq<string>)
    requires Filled(now, was, at, n, got)
    ensures |got| == n ==> at + n <= |was| && now == Put(was, at, got)
  {}

  /** load_array: 1, 0 or -1 for whole, absent or broken. */
  method LoadArray(s: string, sec: nat, key: Name, out: array<string>, at: nat, n: nat) returns (got: int)
    requires sec <= |s| && at + n <= out.Length
    modifies out
    ensures got == match Field(s[sec..], key, at, n, old(out[..])) { case None => -1 case Some(g) => if g.found then 1 else 0 }
    ensures got >= 0 ==> Field(s[sec..], key, at, n, old(out[..])) == Some(Got(got == 1, out[..]))
  {
    hide StrStr, Quote, ParseArray;
    var k := StrStr(s[sec..], Quote(key));
    if k.None? { return 0; }
    var from := |s| - |k.value|;
    assert s[from..] == k.value;
    var count := ParseFloatArray(s, from, out, at, n);
    if count == n { return 1; }
    return -1;
  }

  /** The caller's imud_cal_t. */
  class Calibration {
    var accel: bool
    var gyro: bool
    var mag: bool
    var noise: bool
    var temp: bool
    const nums: array<string>

    ghost predicate Valid() reads this {
      nums.Length == SLOTS
    }

    ghost function Model(): Cal reads this, nums {
      Cal(accel, gyro, mag, noise, temp, nums[..])
    }

    constructor ()
      ensures Valid() && fresh(nums)
    {
      nums := new string[SLOTS];
    }

    /** The memset and the identity defaults. */
    method SetDefaults()
      requires Valid()
      modifies this, nums
      ensures Model() == BLANK_CAL
    {
      accel, gyro, mag, noise, temp := false, false, false, false, false;
      var i := 0;
      while i < SLOTS
        invariant 0 <= i <= SLOTS
        invariant !accel && !gyro && !mag && !noise && !temp
        invariant forall j :: 0 <= j < i ==> nums[j] == Identity()[j]
        modifies nums
      {
        nums[i] := Identity()[i];
        i := i + 1;
      }
      assert nums[..] == Identity();
    }

    method MagSection(s: string) returns (ok: bool)
      requires Valid()
      modifies this, nums
      ensures ok <==> LoadMag(s, old(Model())).Some?
      ensures ok ==> LoadMag(s, old(Model())) == Some(Model())
    {
      hide Field, StrStr, Quote;
      var sec := StrStr(s, Quote(MAG));
      if sec.None? { return true; }
      var at := |s| - |sec.value|;
      assert s[at..] == sec.value;
      var got := LoadArray(s, at, HARD_IRON, nums, HARD_AT, 3);
      if got < 0 { return false; }
      mag := got == 1;
      var soft := LoadArray(s, at, SOFT_IRON, nums, SOFT_AT, 9);
      return soft >= 0;
    }

    method AccelSection(s: string) returns (ok: bool)
      requires Valid()
      modifies this, nums
      ensures ok <==> LoadAccel(s, old(Model())).Some?
      ensures ok ==> LoadAccel(s, old(Model())) == Some(Model())
    {
      hide Field, StrStr, Quote;
      var sec := StrStr(s, Quote(ACCEL));
      if sec.None? { return true; }
      var at := |s| - |sec.value|;
      assert s[at..] == sec.value;
      var got := LoadArray(s, at, OFFSET, nums, OFFSET_AT, 3);
      if got < 0 { return false; }
      accel := got == 1;
      var scale := LoadArray(s, at, SCALE, nums, SCALE_AT, 3);
      return scale >= 0;
    }

    method GyroSection(s: string) returns (ok: bool)
      requires Valid()
      modifies this, nums
      ensures ok <==> LoadGyro(s, old(Model())).Some?
      ensures ok ==> LoadGyro(s, old(Model())) == Some(Model())
    {
      hide Field, StrStr, Quote;
      var sec := StrStr(s, Quote(GYRO));
      if sec.None? { return true; }
      var at := |s| - |sec.value|;
      assert s[at..] == sec.value;
      var got := LoadArray(s, at, BIAS, nums, BIAS_AT, 3);
      if got < 0 { return false; }
      gyro := got == 1;
      return true;
    }

    method NoiseSection(s: string) returns (ok: bool)
      requires Valid()
      modifies this, nums
      ensures ok <==> LoadNoise(s, old(Model())).Some?
      ensures ok ==> LoadNoise(s, old(Model())) == Some(Model())
    {
      hide Field, StrStr, Quote;
      var sec := StrStr(s, Quote(NOISE));
      if sec.None? { return true; }
      var at := |s| - |sec.value|;
      assert s[at..] == sec.value;
      var got := LoadArray(s, at, GYRO_DENSITY, nums, GYRO_DENSITY_AT, 3);
      if got < 0 { return false; }
      noise := got == 1;
      var unstable := LoadArray(s, at, GYRO_INSTABILITY, nums, GYRO_INSTABILITY_AT, 3);
      if unstable < 0 { return false; }
      var density := LoadArray(s, at, ACCEL_DENSITY, nums, ACCEL_DENSITY_AT, 3);
      return density >= 0;
    }

    method TempSection(s: string) returns (ok: bool)
      requires Valid()
      modifies this, nums
      ensures ok <==> LoadTemp(s, old(Model())).Some?
      ensures ok ==> LoadTemp(s, old(Model())) == Some(Model())
    {
      hide Field, ParseScalar, StrStr, Quote;
      var sec := StrStr(s, Quote(GYRO_TEMP));
      if sec.None? { return true; }
      var at := |s| - |sec.value|;
      assert s[at..] == sec.value;
      var got := LoadArray(s, at, COEFF, nums, COEFF_AT, 3);
      if got < 0 { return false; }
      var rc := StrStr(sec.value, Quote(REF_C));
      if got == 1 && rc.Some? {
        var x := ParseScalar(rc.value);
        if x.Some? {
          nums[REF_AT] := x.value;
          temp := true;
        }
      }
      return true;
    }

    /** cal_load: 0 with the record filled, or -1 and what it holds is not to be used. */
    method CalLoad(file: Option<string>, readable: bool) returns (code: int)
      requires Valid()
      modifies this, nums
      ensures code == if file.None? || (readable && Load(file).Loaded?) then 0 else -1
      ensures code == 0 ==> Model() == Load(file).cal
    {
      hide Closed, LoadMag, LoadAccel, LoadGyro, LoadNoise, LoadTemp, Usable;
      SetDefaults();
      if file.None? { return 0; }
      if !readable { return -1; }
      var bytes := file.value;
      var s := CString(if |bytes| <= BUFFER then bytes else bytes[..BUFFER]);
      var closed := JsonObjectClosed(s);
      if !closed { return -1; }
      var ok := MagSection(s);
      if !ok { return -1; }
      ok := AccelSection(s);
      if !ok { return -1; }
      ok := GyroSection(s);
      if !ok { return -1; }
      ok := NoiseSection(s);
      if !ok { return -1; }
      ok := TempSection(s);
      if !ok { return -1; }
      var usable := Guarded(Cal(accel, gyro, mag, noise, temp, nums[..]), false);
      if !usable { return -1; }
      return 0;
    }
  }
}
