/**
 The scanners of src/cal.c on C strings: strstr for a quoted name, the bracket-following
 array reader, the brace counter and strtof's decimal numbers.  `Token` is the vocabulary
 cal_write prints from; the lemmas show that scanning the printed characters does the same
 as walking the tokens.
 */
module JsonScan {

  datatype Option<T> = None | Some(value: T)

  // ---------- strtof on decimal text ----------

  predicate Digit(c: char) {
    '0' <= c <= '9'
  }

  /** isspace in the C locale. */
  predicate Space(c: char) {
    c == ' ' || c == '\t' || c == '\n' || c == '\r' || c as int == 11 || c as int == 12
  }

  /** What the array reader steps over between numbers. */
  predicate Blank(c: char) {
    c == ' ' || c == '\t' || c == '\n' || c == '\r' || c == ','
  }

  predicate NumberChar(c: char) {
    Digit(c) || c == '.' || c == '-' || c == '+' || c == 'e' || c == 'E'
  }

  function DigitRun(s: string): (n: nat)
    ensures n <= |s|
  {
    if s == "" || !Digit(s[0]) then 0 else 1 + DigitRun(s[1..])
  }

  function SignLen(s: string): (n: nat)
    ensures n <= 1 && n <= |s|
  {
    if s != "" && (s[0] == '-' || s[0] == '+') then 1 else 0
  }

  /** Digits, a point and digits; at least one digit on either side of the point. */
  function MantissaLen(s: string): (n: nat)
    ensures n <= |s|
  {
    var d := DigitRun(s);
    if d == |s| || s[d] != '.' then d
    else
      var f := DigitRun(s[d + 1..]);
      if d + f == 0 then 0 else d + 1 + f
  }

  function ExponentLen(s: string): (n: nat)
    ensures n <= |s|
  {
    if s == "" || (s[0] != 'e' && s[0] != 'E') then 0
    else
      var k := 1 + SignLen(s[1..]);
      var d := DigitRun(s[k..]);
      if d == 0 then 0 else k + d
  }

  /** The characters strtof takes from the front, once white space is past; 0 when it takes none. */
  function NumberLen(s: string): (n: nat)
    ensures n <= |s|
  {
    var k := SignLen(s);
    var m := MantissaLen(s[k..]);
    if m == 0 then 0 else k + m + ExponentLen(s[k + m..])
  }

  lemma {:induction false} DigitChars(s: string, i: nat)
    requires i < DigitRun(s)
    ensures Digit(s[i])
  {
    if i > 0 { DigitChars(s[1..], i - 1); }
  }

  lemma MantissaChars(s: string, i: nat)
    requires i < MantissaLen(s)
    ensures NumberChar(s[i])
  {
    var d := DigitRun(s);
    if i < d { DigitChars(s, i); } else if i > d { DigitChars(s[d + 1..], i - d - 1); }
  }

  lemma ExponentChars(s: string, i: nat)
    requires i < ExponentLen(s)
    ensures NumberChar(s[i])
  {
    var k := 1 + SignLen(s[1..]);
    if i >= k { DigitChars(s[k..], i - k); }
  }

  /** strtof takes only the characters of numbers. */
  lemma NumberChars(s: string, i: nat)
    requires i < NumberLen(s)
    ensures NumberChar(s[i])
  {
    var k := SignLen(s);
    var m := MantissaLen(s[k..]);
    if k <= i < k + m { MantissaChars(s[k..], i - k); }
    if i >= k + m { ExponentChars(s[k + m..], i - k - m); }
  }

  function SpaceRun(s: string): (n: nat)
    ensures n <= |s|
  {
    if s == "" || !Space(s[0]) then 0 else 1 + SpaceRun(s[1..])
  }

  datatype Read = Read(text: string, used: nat)

  /** strtof: the number's own text, and how far the end pointer moved. */
  function Strtof(s: string): (r: Option<Read>)
    ensures r.Some? ==> 0 < r.value.used <= |s|
  {
    var w := SpaceRun(s);
    var n := NumberLen(s[w..]);
    if n == 0 then None else Some(Read(s[w..w + n], w + n))
  }

  /** A number as printf writes it: all of it is taken back, and it has at most 49 characters. */
  predicate Printed(t: string) {
    0 < NumberLen(t) == |t| <= 49
  }

  lemma PrintedStart(t: string)
    requires Printed(t)
    ensures t != "" && NumberChar(t[0])
  {
    NumberChars(t, 0);
  }

  predicate Stops(rest: string) {
    rest == "" || !NumberChar(rest[0])
  }

  lemma {:induction false} DigitRunAppend(t: string, rest: string)
    requires rest == "" || !Digit(rest[0])
    ensures DigitRun(t + rest) == DigitRun(t)
  {
    if t == "" {
      assert t + rest == rest;
    } else {
      assert (t + rest)[1..] == t[1..] + rest;
      DigitRunAppend(t[1..], rest);
    }
  }

  lemma MantissaAppend(t: string, rest: string)
    requires Stops(rest)
    ensures MantissaLen(t + rest) == MantissaLen(t)
  {
    var d := DigitRun(t);
    DigitRunAppend(t, rest);
    if d < |t| {
      assert (t + rest)[d + 1..] == t[d + 1..] + rest;
      DigitRunAppend(t[d + 1..], rest);
    }
  }

  lemma ExponentAppend(t: string, rest: string)
    requires Stops(rest)
    ensures ExponentLen(t + rest) == ExponentLen(t)
  {
    if t == "" {
      assert t + rest == rest;
    } else {
      assert (t + rest)[1..] == t[1..] + rest;
      var k := 1 + SignLen(t[1..]);
      if 1 < |t| { assert (t + rest)[1..][0] == t[1]; }
      assert SignLen((t + rest)[1..]) == SignLen(t[1..]);
      assert (t + rest)[k..] == t[k..] + rest;
      DigitRunAppend(t[k..], rest);
    }
  }

  /** A number ends where it ends, whatever follows that cannot be part of one. */
  lemma NumberAppend(t: string, rest: string)
    requires t != "" && Stops(rest)
    ensures NumberLen(t + rest) == NumberLen(t)
  {
    hide MantissaLen, ExponentLen, DigitRun;
    var k := SignLen(t);
    assert SignLen(t + rest) == k;
    assert (t + rest)[k..] == t[k..] + rest;
    MantissaAppend(t[k..], rest);
    var m := MantissaLen(t[k..]);
    assert (t + rest)[k + m..] == t[k + m..] + rest;
    ExponentAppend(t[k + m..], rest);
  }

  /** strtof takes a printed number back whole, after any white space, up to a blank. */
  lemma {:induction false} StrtofPrinted(space: string, t: string, rest: string)
    requires Printed(t) && Stops(rest)
    requires forall i :: 0 <= i < |space| ==> Space(space[i])
    ensures Strtof(space + t + rest) == Some(Read(t, |space| + |t|))
  {
    var s := space + t + rest;
    hide NumberLen, SpaceRun;
    PrintedStart(t);
    assert (t + rest)[0] == t[0];
    SpaceRunIs(space, t + rest);
    assert space + (t + rest) == s;
    assert s[|space|..] == t + rest;
    NumberAppend(t, rest);
    assert s[|space|..|space| + |t|] == t;
  }

  lemma {:induction false} SpaceRunIs(space: string, rest: string)
    requires forall i :: 0 <= i < |space| ==> Space(space[i])
    requires rest == "" || !Space(rest[0])
    ensures SpaceRun(space + rest) == |space|
  {
    if space == "" {
      assert space + rest == rest;
    } else {
      assert (space + rest)[1..] == space[1..] + rest;
      SpaceRunIs(space[1..], rest);
    }
  }

  // ---------- searching ----------

  /** strstr: the rest of s from the first place pat stands. */
  function StrStr(s: string, pat: string): (r: Option<string>)
    ensures r.Some? ==> |r.value| <= |s| && pat <= r.value && r.value == s[|s| - |r.value|..]
  {
    if pat <= s then assert s[0..] == s; Some(s) else if s == "" then None else StrStr(s[1..], pat)
  }

  /** Nothing before what strstr returns is an occurrence, and None means there is none. */
  lemma {:induction false} StrStrFirst(s: string, pat: string, k: nat)
    requires k <= |s| && pat <= s[k..]
    ensures StrStr(s, pat).Some? && |s| - |StrStr(s, pat).value| <= k
  {
    assert s[0..] == s;
    if !(pat <= s) {
      assert s[k..] == s[1..][k - 1..];
      StrStrFirst(s[1..], pat, k - 1);
    }
  }

  /** strchr. */
  function StrChr(s: string, c: char): (r: Option<string>)
    ensures r.Some? ==> 0 < |r.value| <= |s| && r.value[0] == c && r.value == s[|s| - |r.value|..]
    ensures r.Some? ==> c !in s[..|s| - |r.value|]
    ensures r.None? <==> c !in s
  {
    if s == "" then None else if s[0] == c then Some(s) else StrChr(s[1..], c)
  }

  /** From a '[' on: the numbers up to the bracket that closes it, or None. */
  function Scan(s: string, depth: int, got: seq<string>): Option<seq<string>>
    decreases |s|
  {
    if s == "" then None
    else if Blank(s[0]) then Scan(s[1..], depth, got)
    else if s[0] == '[' then Scan(s[1..], depth + 1, got)
    else if s[0] == ']' then
      if depth - 1 == 0 then Some(got) else Scan(s[1..], depth - 1, got)
    else match Strtof(s)
      case None => None
      case Some(r) => Scan(s[r.used..], depth, got + [r.text])
  }

  function ParseArray(s: string): Option<seq<string>> {
    match StrChr(s, '[')
    case None => None
    case Some(p) => Scan(p, 0, [])
  }

  /** The number after the next colon. */
  function ParseScalar(s: string): Option<string> {
    match StrChr(s, ':')
    case None => None
    case Some(p) =>
      match Strtof(p[1..])
      case None => None
      case Some(r) => Some(r.text)
  }

  // ---------- braces ----------

  function Brace(c: char): int {
    if c == '{' then 1 else if c == '}' then -1 else 0
  }

  /** Opening less closing braces. */
  function Depth(s: string): int {
    if s == "" then 0 else Depth(s[..|s| - 1]) + Brace(s[|s| - 1])
  }

  /** No prefix closes more than it opened. */
  predicate NeverBelow(s: string) {
    forall k :: 0 <= k <= |s| ==> Depth(s[..k]) >= 0
  }

  /** One closed JSON object, as far as braces go. */
  predicate Closed(s: string) {
    '{' in s && NeverBelow(s) && Depth(s) == 0
  }

  predicate Level(s: string) {
    NeverBelow(s) && Depth(s) == 0
  }

  lemma {:induction false} DepthAppend(a: string, b: string)
    ensures Depth(a + b) == Depth(a) + Depth(b)
  {
    if b == "" {
      assert a + b == a;
    } else {
      assert (a + b)[..|a + b| - 1] == a + b[..|b| - 1];
      DepthAppend(a, b[..|b| - 1]);
    }
  }

  lemma LevelAppend(a: string, b: string)
    requires Level(a) && Level(b)
    ensures Level(a + b)
  {
    DepthAppend(a, b);
    forall k | 0 <= k <= |a + b| ensures Depth((a + b)[..k]) >= 0 {
      if k <= |a| {
        assert (a + b)[..k] == a[..k];
      } else {
        assert (a + b)[..k] == a + b[..k - |a|];
        DepthAppend(a, b[..k - |a|]);
      }
    }
  }

  lemma {:induction false} FlatDepth(s: string)
    requires '{' !in s && '}' !in s
    ensures Depth(s) == 0
  {
    if s != "" { FlatDepth(s[..|s| - 1]); }
  }

  lemma FlatLevel(s: string)
    requires '{' !in s && '}' !in s
    ensures Level(s)
  {
    forall k | 0 <= k <= |s| ensures Depth(s[..k]) >= 0 {
      FlatDepth(s[..k]);
    }
    assert s[..|s|] == s;
    FlatDepth(s);
  }

  /** Within a wrapped text every proper prefix but the empty one is still open. */
  lemma OpenInside(s: string, k: nat)
    requires Level(s) && 1 <= k <= |s| + 1
    ensures Depth(("{" + s + "}")[..k]) >= 1
  {
    assert ("{" + s + "}")[..k] == "{" + s[..k - 1];
    DepthAppend("{", s[..k - 1]);
    assert "{"[..0] == "";
    assert Depth("{") == 1;
  }

  lemma LevelWrap(s: string)
    requires Level(s)
    ensures Level("{" + s + "}")
  {
    var w := "{" + s + "}";
    assert "{"[..0] == "" && "}"[..0] == "";
    assert Depth("{") == 1 && Depth("}") == -1;
    DepthAppend("{" + s, "}");
    DepthAppend("{", s);
    forall k | 0 <= k <= |w| ensures Depth(w[..k]) >= 0 {
      if k == |w| {
        assert w[..k] == w;
      } else if k > 0 {
        OpenInside(s, k);
      } else {
        assert w[..0] == "";
      }
    }
  }

  // ---------- what cal_write prints ----------

  /** The quoted names of the file. */
  datatype Name = MAG | GYRO | ACCEL | NOISE | GYRO_TEMP
                | HARD_IRON | SOFT_IRON | BIAS | OFFSET | SCALE
                | GYRO_DENSITY | GYRO_INSTABILITY | ACCEL_DENSITY | COEFF | REF_C

  function Spell(n: Name): string {
    match n
    case MAG => "mag" case GYRO => "gyro" case ACCEL => "accel"
    case NOISE => "noise" case GYRO_TEMP => "gyro_temp"
    case HARD_IRON => "hard_iron" case SOFT_IRON => "soft_iron"
    case BIAS => "bias" case OFFSET => "offset" case SCALE => "scale"
    case GYRO_DENSITY => "gyro_density" case GYRO_INSTABILITY => "gyro_instability"
    case ACCEL_DENSITY => "accel_density" case COEFF => "coeff" case REF_C => "ref_c"
  }

  function Quote(n: Name): string {
    "\"" + Spell(n) + "\""
  }

  datatype Token = Gap(text: string) | Key(name: Name) | Num(text: string)
                 | OpenBrace | CloseBrace | OpenBracket | CloseBracket

  function Show(t: Token): string {
    match t
    case Gap(s) => s
    case Key(n) => Quote(n) + ":"
    case Num(s) => s
    case OpenBrace => "{"
    case CloseBrace => "}"
    case OpenBracket => "["
    case CloseBracket => "]"
  }

  function Render(ts: seq<Token>): string {
    if ts == [] then "" else Show(ts[0]) + Render(ts[1..])
  }

  lemma {:induction false} RenderAppend(a: seq<Token>, b: seq<Token>)
    ensures Render(a + b) == Render(a) + Render(b)
  {
    if a == [] {
      assert a + b == b;
    } else {
      assert (a + b)[1..] == a[1..] + b;
      RenderAppend(a[1..], b);
    }
  }

  lemma RenderOne(t: Token)
    ensures Render([t]) == Show(t)
  {
    assert [t][1..] == [];
    assert Show(t) + "" == Show(t);
  }

  predicate AllBlank(s: string) {
    forall i :: 0 <= i < |s| ==> Blank(s[i])
  }

  /** Gaps are blank and numbers printed. */
  predicate Sound(t: Token) {
    (t.Gap? ==> AllBlank(t.text)) && (t.Num? ==> Printed(t.text))
  }

  /** Sound tokens, and a blank after every number. */
  predicate Tidy(ts: seq<Token>) {
    forall i :: 0 <= i < |ts| ==> Sound(ts[i]) && (ts[i].Num? ==> Followed(ts, i))
  }

  predicate Followed(ts: seq<Token>, i: nat) {
    i + 1 < |ts| && ts[i + 1].Gap? && ts[i + 1].text != ""
  }

  lemma TidyTail(ts: seq<Token>)
    requires Tidy(ts) && ts != []
    ensures Tidy(ts[1..])
  {
    forall i | 0 <= i < |ts[1..]|
      ensures Sound(ts[1..][i]) && (ts[1..][i].Num? ==> Followed(ts[1..], i))
    {
      assert ts[1..][i] == ts[i + 1];
      assert ts[i + 1].Num? ==> Followed(ts, i + 1);
    }
  }

  lemma TidyAppend(a: seq<Token>, b: seq<Token>)
    requires Tidy(a) && Tidy(b)
    ensures Tidy(a + b)
  {
    hide Sound;
    var c := a + b;
    forall i | 0 <= i < |c| ensures Sound(c[i]) && (c[i].Num? ==> Followed(c, i)) {
      if i < |a| {
        assert c[i] == a[i];
        assert a[i].Num? ==> Followed(a, i);
      } else {
        assert c[i] == b[i - |a|];
        assert b[i - |a|].Num? ==> Followed(b, i - |a|);
      }
    }
  }

  predicate NameChar(c: char) {
    'a' <= c <= 'z' || c == '_'
  }

  lemma SpellIsName(n: Name)
    ensures 3 <= |Spell(n)| <= 16
    ensures forall i :: 0 <= i < |Spell(n)| ==> NameChar(Spell(n)[i])
  {
    match n
    case MAG => case GYRO => case ACCEL => case NOISE => case GYRO_TEMP =>
    case HARD_IRON => case SOFT_IRON => case BIAS => case OFFSET => case SCALE =>
    case GYRO_DENSITY => case GYRO_INSTABILITY => case ACCEL_DENSITY => case COEFF => case REF_C =>
  }

  lemma SpellInjective(m: Name, n: Name)
    requires Spell(m) == Spell(n)
    ensures m == n
  {
    var a, b := Spell(m), Spell(n);
    assert |a| == |b| && a[0] == b[0];
  }

  // ---------- searching the printed text is searching the tokens ----------

  function FindKey(ts: seq<Token>, n: Name): Option<seq<Token>> {
    if ts == [] then None else if ts[0] == Key(n) then Some(ts) else FindKey(ts[1..], n)
  }

  lemma {:induction false} SkipPlain(t: string, rest: string, n: Name)
    requires '"' !in t
    ensures StrStr(t + rest, Quote(n)) == StrStr(rest, Quote(n))
  {
    if t == "" {
      assert t + rest == rest;
    } else {
      assert (t + rest)[1..] == t[1..] + rest;
      assert Quote(n)[0] == '"';
      SkipPlain(t[1..], rest, n);
    }
  }

  /** Two quoted names are told apart where the shorter one closes, or at a letter. */
  lemma OtherName(m: Name, n: Name, rest: string)
    requires m != n
    ensures !(Quote(n) <= Quote(m) + ":" + rest)
  {
    hide Spell;
    var a, b := Spell(m), Spell(n);
    var s, p := Quote(m) + ":" + rest, Quote(n);
    SpellIsName(m);
    SpellIsName(n);
    if |a| < |b| {
      assert s[|a| + 1] == '"' && p[|a| + 1] == b[|a|];
    } else if |a| > |b| {
      assert p[|b| + 1] == '"' && s[|b| + 1] == a[|b|];
    } else {
      assert a != b by { if a == b { SpellInjective(m, n); } }
      var i :| 0 <= i < |a| && a[i] != b[i];
      assert s[i + 1] == a[i] && p[i + 1] == b[i];
    }
  }

  lemma SkipKey(m: Name, n: Name, rest: string)
    requires m != n
    ensures StrStr(Show(Key(m)) + rest, Quote(n)) == StrStr(rest, Quote(n))
  {
    hide Spell;
    OtherName(m, n, rest);
    var tail := "\":" + rest;
    SpellIsName(m);
    assert (Quote(m) + ":" + rest)[1..] == Spell(m) + tail;
    assert '"' !in Spell(m);
    SkipPlain(Spell(m), tail, n);
    SkipColon(rest, n);
  }

  lemma SkipColon(rest: string, n: Name)
    ensures StrStr("\":" + rest, Quote(n)) == StrStr(rest, Quote(n))
  {
    hide Spell;
    var tail := "\":" + rest;
    SpellIsName(n);
    assert tail[1] == ':' && Quote(n)[1] == Spell(n)[0];
    assert NameChar(Spell(n)[0]);
    assert tail[1..] == ":" + rest;
    SkipPlain(":", rest, n);
  }

  lemma PlainToken(t: Token)
    requires Sound(t) && !t.Key?
    ensures '"' !in Show(t) && ':' !in Show(t) && '\0' !in Show(t)
    ensures !t.OpenBracket? ==> '[' !in Show(t)
    ensures !t.OpenBrace? ==> '{' !in Show(t)
    ensures !t.CloseBrace? ==> '}' !in Show(t)
  {
    if t.Num? {
      forall i | 0 <= i < |t.text| ensures NumberChar(t.text[i]) {
        NumberChars(t.text, i);
      }
    }
  }

  /** strstr over the printed text stops exactly at the key of that name, or nowhere. */
  lemma {:induction false} StrStrIsFindKey(ts: seq<Token>, n: Name)
    requires Tidy(ts)
    ensures StrStr(Render(ts), Quote(n))
         == match FindKey(ts, n) { case None => None case Some(u) => Some(Render(u)) }
    ensures FindKey(ts, n).Some? ==> Tidy(FindKey(ts, n).value)
  {
    if ts == [] {
      assert |Quote(n)| >= 2;
    } else {
      TidyTail(ts);
      StrStrIsFindKey(ts[1..], n);
      var rest := Render(ts[1..]);
      if ts[0] == Key(n) {
        assert Quote(n) <= Show(ts[0]) + rest;
      } else if ts[0].Key? {
        SkipKey(ts[0].name, n, rest);
      } else {
        PlainToken(ts[0]);
        SkipPlain(Show(ts[0]), rest, n);
      }
    }
  }

  lemma {:induction false} FindPast(a: seq<Token>, b: seq<Token>, n: Name)
    requires Key(n) !in a
    ensures FindKey(a + b, n) == FindKey(b, n)
  {
    if a == [] {
      assert a + b == b;
    } else {
      assert (a + b)[1..] == a[1..] + b;
      FindPast(a[1..], b, n);
    }
  }

  lemma FindNone(a: seq<Token>, n: Name)
    requires Key(n) !in a
    ensures FindKey(a, n) == None
  {
    FindPast(a, [], n);
    assert a + [] == a;
  }

  lemma FindAt(a: seq<Token>, n: Name, b: seq<Token>)
    requires Key(n) !in a
    ensures FindKey(a + ([Key(n)] + b), n) == Some([Key(n)] + b)
  {
    FindPast(a, [Key(n)] + b, n);
  }

  // ---------- reading an array off the tokens ----------

  function ScanTokens(ts: seq<Token>, depth: int, got: seq<string>): Option<seq<string>> {
    if ts == [] then None
    else match ts[0]
      case Gap(_) => ScanTokens(ts[1..], depth, got)
      case Num(t) => ScanTokens(ts[1..], depth, got + [t])
      case OpenBracket => ScanTokens(ts[1..], depth + 1, got)
      case CloseBracket => if depth - 1 == 0 then Some(got) else ScanTokens(ts[1..], depth - 1, got)
      case _ => None
  }

  lemma {:induction false} ScanGap(t: string, rest: string, depth: int, got: seq<string>)
    requires AllBlank(t)
    ensures Scan(t + rest, depth, got) == Scan(rest, depth, got)
  {
    if t == "" {
      assert t + rest == rest;
    } else {
      assert (t + rest)[1..] == t[1..] + rest;
      ScanGap(t[1..], rest, depth, got);
    }
  }

  lemma ScanStep(s: string, r: Read, depth: int, got: seq<string>)
    requires s != "" && NumberChar(s[0]) && Strtof(s) == Some(r)
    ensures Scan(s, depth, got) == Scan(s[r.used..], depth, got + [r.text])
  {
    hide Strtof;
  }

  lemma ScanNum(t: string, rest: string, depth: int, got: seq<string>)
    requires Printed(t) && rest != "" && Blank(rest[0])
    ensures Scan(t + rest, depth, got) == Scan(rest, depth, got + [t])
  {
    hide Scan, Strtof, Printed;
    var s := t + rest;
    PrintedStart(t);
    StrtofPrinted("", t, rest);
    assert "" + t + rest == s;
    ScanStep(s, Read(t, |t|), depth, got);
    assert s[|t|..] == rest;
  }

  lemma NotANumber(s: string, depth: int, got: seq<string>)
    requires s != "" && (s[0] == '"' || s[0] == '{' || s[0] == '}')
    ensures Scan(s, depth, got) == None
  {
    assert SpaceRun(s) == 0;
    assert s[0..] == s;
    assert SignLen(s) == 0;
    assert DigitRun(s) == 0;
    assert Strtof(s) == None;
    hide Strtof;
  }

  lemma ScanBracket(rest: string, depth: int, got: seq<string>)
    ensures Scan("[" + rest, depth, got) == Scan(rest, depth + 1, got)
    ensures Scan("]" + rest, depth, got) == if depth - 1 == 0 then Some(got) else Scan(rest, depth - 1, got)
  {
    hide Strtof;
    assert ("[" + rest)[1..] == rest && ("]" + rest)[1..] == rest;
  }

  /** Reading the printed characters gives the numbers of the tokens, up to the same closing bracket. */
  lemma {:induction false} ScanIsScanTokens(ts: seq<Token>, depth: int, got: seq<string>)
    requires Tidy(ts)
    ensures Scan(Render(ts), depth, got) == ScanTokens(ts, depth, got)
    decreases |ts|
  {
    hide Scan, ScanTokens, Sound, Tidy, Show, Blank;
    if ts == [] {
      NothingToScan(depth, got);
    } else {
      TidyTail(ts);
      FirstSound(ts);
      if Reading(ts[0], depth) {
        ScanIsScanTokens(ts[1..], depth + Step(ts[0]), got + Numbers(ts[0]));
      }
      ScanOne(ts[0], Render(ts[1..]), depth, got);
      TokenOne(ts, depth, got);
    }
  }

  lemma NothingToScan(depth: int, got: seq<string>)
    ensures Scan("", depth, got) == None == ScanTokens([], depth, got)
  {}

  /** Scanning goes on past the token. */
  predicate Reading(t: Token, depth: int) {
    t.Gap? || t.Num? || t.OpenBracket? || (t.CloseBracket? && depth - 1 != 0)
  }

  function Step(t: Token): int {
    if t.OpenBracket? then 1 else if t.CloseBracket? then -1 else 0
  }

  function Numbers(t: Token): seq<string> {
    if t.Num? then [t.text] else []
  }

  /** Where it does not go on, the array is over. */
  function Over(t: Token, got: seq<string>): Option<seq<string>> {
    if t.CloseBracket? then Some(got) else None
  }

  lemma TokenOne(ts: seq<Token>, depth: int, got: seq<string>)
    requires ts != []
    ensures ScanTokens(ts, depth, got)
         == if Reading(ts[0], depth) then ScanTokens(ts[1..], depth + Step(ts[0]), got + Numbers(ts[0])) else Over(ts[0], got)
  {
    assert got + [] == got;
  }

  lemma ScanOne(t: Token, rest: string, depth: int, got: seq<string>)
    requires Sound(t) && (t.Num? ==> rest != "" && Blank(rest[0]))
    ensures Scan(Show(t) + rest, depth, got)
         == if Reading(t, depth) then Scan(rest, depth + Step(t), got + Numbers(t)) else Over(t, got)
  {
    hide Scan, Printed;
    assert got + [] == got;
    match t
    case Gap(s) => ScanGap(s, rest, depth, got);
    case Num(s) => ScanNum(s, rest, depth, got);
    case OpenBracket => ScanBracket(rest, depth, got);
    case CloseBracket => ScanBracket(rest, depth, got);
    case Key(n) => NotANumber(Show(t) + rest, depth, got);
    case OpenBrace => NotANumber(Show(t) + rest, depth, got);
    case CloseBrace => NotANumber(Show(t) + rest, depth, got);
  }

  lemma FirstSound(ts: seq<Token>)
    requires Tidy(ts) && ts != []
    ensures Sound(ts[0]) && (ts[0].Num? ==> Render(ts[1..]) != "" && Blank(Render(ts[1..])[0]))
  {
    if ts[0].Num? { BlankFollows(ts); }
    hide Printed;
    assert Sound(ts[0]);
  }

  lemma BlankFollows(ts: seq<Token>)
    requires Tidy(ts) && ts != [] && ts[0].Num?
    ensures Render(ts[1..]) != "" && Blank(Render(ts[1..])[0]) && Printed(ts[0].text)
  {
    hide Printed;
    assert Followed(ts, 0);
    var next := ts[1..];
    assert next[0] == ts[1] && Sound(ts[1]);
  }

  function FindBracket(ts: seq<Token>): Option<seq<Token>> {
    if ts == [] then None else if ts[0].OpenBracket? then Some(ts) else FindBracket(ts[1..])
  }

  function ArrayTokens(ts: seq<Token>): Option<seq<string>> {
    match FindBracket(ts)
    case None => None
    case Some(u) => ScanTokens(u, 0, [])
  }

  lemma {:induction false} SkipChar(t: string, rest: string, c: char)
    requires c !in t
    ensures StrChr(t + rest, c) == StrChr(rest, c)
  {
    if t == "" {
      assert t + rest == rest;
    } else {
      assert (t + rest)[1..] == t[1..] + rest;
      SkipChar(t[1..], rest, c);
    }
  }

  lemma KeyText(n: Name)
    ensures '[' !in Show(Key(n)) && '{' !in Show(Key(n)) && '}' !in Show(Key(n)) && '\0' !in Show(Key(n))
    ensures ':' !in Quote(n)
  {
    SpellIsName(n);
  }

  lemma FoundHere(c: char, rest: string)
    ensures StrChr([c] + rest, c) == Some([c] + rest)
  {}

  lemma NoBracketIn(t: Token)
    requires Sound(t) && !t.OpenBracket?
    ensures '[' !in Show(t)
  {
    if t.Key? { KeyText(t.name); } else { PlainToken(t); }
  }

  lemma {:induction false} StrChrIsFindBracket(ts: seq<Token>)
    requires Tidy(ts)
    ensures StrChr(Render(ts), '[')
         == match FindBracket(ts) { case None => None case Some(u) => Some(Render(u)) }
    ensures FindBracket(ts).Some? ==> Tidy(FindBracket(ts).value)
  {
    hide StrChr, Printed, Followed;
    if ts != [] {
      TidyTail(ts);
      StrChrIsFindBracket(ts[1..]);
      if ts[0].OpenBracket? {
        FoundHere('[', Render(ts[1..]));
      } else {
        NoBracketIn(ts[0]);
        SkipChar(Show(ts[0]), Render(ts[1..]), '[');
      }
    }
  }

  /** parse_float_array on printed text. */
  lemma ParseArrayIsTokens(ts: seq<Token>)
    requires Tidy(ts)
    ensures ParseArray(Render(ts)) == ArrayTokens(ts)
  {
    StrChrIsFindBracket(ts);
    match FindBracket(ts)
    case None =>
    case Some(u) => ScanIsScanTokens(u, 0, []);
  }

  // ---------- characters of printed text ----------

  predicate NoBraces(ts: seq<Token>) {
    forall i :: 0 <= i < |ts| ==> !ts[i].OpenBrace? && !ts[i].CloseBrace?
  }

  lemma {:induction false} NoBracesPrinted(ts: seq<Token>)
    requires (forall i :: 0 <= i < |ts| ==> Sound(ts[i])) && NoBraces(ts)
    ensures '{' !in Render(ts) && '}' !in Render(ts)
  {
    if ts != [] {
      NoBracesPrinted(ts[1..]);
      if ts[0].Key? { KeyText(ts[0].name); } else { PlainToken(ts[0]); }
    }
  }

  lemma {:induction false} NoNul(ts: seq<Token>)
    requires forall i :: 0 <= i < |ts| ==> Sound(ts[i])
    ensures '\0' !in Render(ts)
  {
    if ts != [] {
      NoNul(ts[1..]);
      if ts[0].Key? { KeyText(ts[0].name); } else { PlainToken(ts[0]); }
    }
  }
}
