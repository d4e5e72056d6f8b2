/** Which scalars, lines and module headers tf2yaml.py recognizes, written out. */
module TfAnswers {
  import opened PyText
  import opened Text
  import opened TfScanners
  import opened TfParser
  import opened TfModules
  import opened TfRoundTrip
  import opened TfWritten

  // ---------------------------------------------------------------- characters

  /** White space is what Python takes for it, by code point. */
  lemma SpaceCodes(c: char)
    ensures PyText.IsSpace(c) <==> var n := c as int;
      || 9 <= n <= 13 || 28 <= n <= 32 || n in {133, 160, 5760} || 8192 <= n <= 8202
      || n in {8232, 8233, 8239, 8287, 12288}
  {
  }

  /** A key is made of the digits, the letters of both cases and the underscore, by code point. */
  lemma WordCodes(c: char)
    ensures IsWord(c) <==> var n := c as int; 48 <= n <= 57 || 65 <= n <= 90 || n == 95 || 97 <= n <= 122
  {
  }

  /** Lines break where str.splitlines breaks them, by code point. */
  lemma BreakCodes(c: char)
    ensures IsBreak(c) <==> var n := c as int; 10 <= n <= 13 || 28 <= n <= 30 || n in {133, 8232, 8233}
  {
  }

  /** The first line break ends a line, a carriage return together with the newline behind it. */
  lemma SplitsAtFirstBreak(line: string, rest: string, b: char)
    requires NoBreaks(line) && IsBreak(b)
    ensures b != '\r' || !("\n" <= rest) ==> SplitLines(line + ([b] + rest)) == [line] + SplitLines(rest)
    ensures SplitLines(line + ("\r\n" + rest)) == [line] + SplitLines(rest)
  {
    hide IsBreak;
    var s, t := line + ([b] + rest), line + ("\r\n" + rest);
    ReturnBreaks();
    EndsAtBreak(line, [b] + rest);
    EndsAtBreak(line, "\r\n" + rest);
    assert s[|line|..] == [b] + rest && s[|line| + 1..] == rest && s[..|line|] == line;
    assert t[|line|..] == "\r\n" + rest && t[|line| + 2..] == rest && t[..|line|] == line;
    assert ([b] + rest)[1..] == rest && ("\r\n" <= [b] + rest <==> b == '\r' && "\n" <= rest);
  }

  lemma ReturnBreaks()
    ensures IsBreak('\r')
  {
  }

  lemma {:induction false} EndsAtBreak(line: string, rest: string)
    requires NoBreaks(line) && rest != "" && IsBreak(rest[0])
    ensures LineEnd(line + rest) == |line|
  {
    hide IsBreak;
    if line == "" {
      assert line + rest == rest;
    } else {
      assert line[0] in line && (line + rest)[1..] == line[1..] + rest;
      assert NoBreaks(line[1..]);
      EndsAtBreak(line[1..], rest);
    }
  }

  // ---------------------------------------------------------------- scalars

  lemma {:induction false} StripsLead(lead: string, s: string)
    requires AllSpace(lead) && (s == "" || !PyText.IsSpace(s[0]))
    ensures LStrip(lead + s) == s
  {
    hide PyText.IsSpace;
    if lead == "" {
      assert lead + s == s;
    } else {
      assert lead[0] in lead && (lead + s)[1..] == lead[1..] + s;
      assert forall c :: c in lead[1..] ==> c in lead;
      StripsLead(lead[1..], s);
    }
  }

  lemma {:induction false} StripsTrail(s: string, trail: string)
    requires AllSpace(trail) && (s == "" || !PyText.IsSpace(s[|s| - 1]))
    ensures RStrip(s + trail) == s
  {
    hide PyText.IsSpace;
    var t := s + trail;
    if trail == "" {
      assert t == s;
    } else {
      var n := |trail| - 1;
      assert trail[n] in trail && t[..|t| - 1] == s + trail[..n];
      assert forall c :: c in trail[..n] ==> c in trail;
      StripsTrail(s, trail[..n]);
    }
  }

  lemma {:induction false} DropsAllCommas(v: string, commas: string)
    requires (v == "" || v[|v| - 1] != ',') && forall c :: c in commas ==> c == ','
    ensures DropCommas(v + commas) == v
  {
    var t := v + commas;
    if commas == "" {
      assert t == v;
    } else {
      var n := |commas| - 1;
      assert commas[n] in commas && t[..|t| - 1] == v + commas[..n];
      assert forall c :: c in commas[..n] ==> c in commas;
      DropsAllCommas(v, commas[..n]);
    }
  }

  /** A value as it stands on a line: white space around it, commas behind it. */
  ghost predicate Bordered(val: string, v: string) {
    exists lead, commas, trail ::
      && val == lead + ((v + commas) + trail) && AllSpace(lead) && AllSpace(trail)
      && (forall c :: c in commas ==> c == ',')
      && (v + commas == "" || (!PyText.IsSpace((v + commas)[0]) && !PyText.IsSpace((v + commas)[|v + commas| - 1])))
      && (v == "" || v[|v| - 1] != ',')
  }

  lemma StripIs(lead: string, s: string, trail: string)
    requires AllSpace(lead) && AllSpace(trail)
    requires s == "" || (!PyText.IsSpace(s[0]) && !PyText.IsSpace(s[|s| - 1]))
    ensures Strip(lead + (s + trail)) == s
  {
    hide PyText.IsSpace, LStrip, RStrip;
    if s == "" {
      assert s + trail == trail;
      OnlySpace(lead + trail, lead, trail);
    } else {
      assert (s + trail)[0] == s[0];
      StripsLead(lead, s + trail);
      StripsTrail(s, trail);
    }
  }

  lemma BorderedIsCut(val: string, v: string)
    requires Bordered(val, v)
    ensures DropCommas(Strip(val)) == v
  {
    hide PyText.IsSpace, AllSpace, Strip, DropCommas;
    var lead, commas, trail :|
      && val == lead + ((v + commas) + trail) && AllSpace(lead) && AllSpace(trail)
      && (forall c :: c in commas ==> c == ',')
      && (v + commas == "" || (!PyText.IsSpace((v + commas)[0]) && !PyText.IsSpace((v + commas)[|v + commas| - 1])))
      && (v == "" || v[|v| - 1] != ',');
    StripIs(lead, v + commas, trail);
    DropsAllCommas(v, commas);
  }

  lemma OnlySpace(s: string, lead: string, trail: string)
    requires s == lead + trail && AllSpace(lead) && AllSpace(trail)
    ensures Strip(s) == ""
  {
    hide PyText.IsSpace;
    LStripFacts(s);
    var t := LStrip(s);
    RStripFacts(t);
    assert forall c :: c in t ==> c in s;
    assert forall c :: c in s ==> c in lead || c in trail;
  }

  /** A boolean, a number, a list in brackets, or a text in quotes of one kind. */
  predicate Kept(v: string) {
    || v == "true" || v == "false"
    || (v != "" && forall c :: c in v ==> c in "0123456789")
    || (v != "" && v[0] == '[' && v[|v| - 1] == ']')
    || (v != "" && v[0] == '"' && v[|v| - 1] == '"')
    || (v != "" && v[0] == '\'' && v[|v| - 1] == '\'')
  }

  lemma DigitsAre(c: char)
    ensures c in "0123456789" <==> '0' <= c <= '9'
  {
    var digits := "0123456789";
    if '0' <= c <= '9' { assert digits[c as int - '0' as int] == c; }
  }

  lemma KeptIsVerbatim(v: string)
    ensures Kept(v) <==> Verbatim(v)
  {
    forall c | c in v ensures c in "0123456789" <==> '0' <= c <= '9' { DigitsAre(c); }
  }

  /** Exactly these values are kept as they are; every other one is put in single quotes that read back as it. */
  lemma ScalarKeptExactlyWhen(val: string, v: string)
    requires Bordered(val, v)
    ensures ToYamlScalar(val) == v <==> Kept(v)
    ensures !Kept(v) ==>
      var r := ToYamlScalar(val); r != "" && r[0] == '\'' && r[|r| - 1] == '\'' && ReadQuoted(r[1..]) == Some(v)
  {
    hide Bordered, Verbatim, Strip, DropCommas, Doubled, ReadQuoted, Kept;
    BorderedIsCut(val, v);
    KeptIsVerbatim(v);
    DoubledReadsBack(v);
    DoubledIsLonger(v);
    var r := "'" + Doubled(v) + "'";
    assert r[1..] == Doubled(v) + "'";
  }

  lemma {:induction false} DoubledIsLonger(v: string)
    ensures |Doubled(v)| >= |v|
  {
    if v != "" { DoubledIsLonger(v[1..]); }
  }

  /** What a YAML reader makes of a scalar, by the core schema of YAML 1.2 as far as these scalars go. */
  datatype Yaml = Bool(b: bool) | Int(n: nat) | Str(text: string) | DoubleQuoted(text: string) | Flow(text: string)

  function ReadYaml(s: string): Option<Yaml> {
    if s == "true" then Some(Bool(true))
    else if s == "false" then Some(Bool(false))
    else if s != "" && forall k :: 0 <= k < |s| ==> IsDigit(s[k]) then Some(Int(DigitsValue(s)))
    else if |s| >= 2 && s[0] == '"' && s[|s| - 1] == '"' then Some(DoubleQuoted(s[1..|s| - 1]))
    else if |s| >= 2 && s[0] == '[' && s[|s| - 1] == ']' then Some(Flow(s))
    else if s != "" && s[0] == '\'' then
      var text := ReadQuoted(s[1..]);
      if text.Some? then Some(Str(text.value)) else None
    else None
  }

  /** Booleans stay booleans, numbers numbers and lists lists; a bare word becomes the string it is. */
  lemma ScalarReadsTyped(val: string, v: string)
    requires Bordered(val, v)
    ensures var y := ReadYaml(ToYamlScalar(val));
      && (v == "true" ==> y == Some(Bool(true))) && (v == "false" ==> y == Some(Bool(false)))
      && (forall n: nat :: v == Decimal(n) ==> y == Some(Int(n)))
      && (forall text :: v == "\"" + text + "\"" ==> y == Some(DoubleQuoted(text)))
      && (forall text :: v == "[" + text + "]" ==> y == Some(Flow(v)))
      && (!Kept(v) ==> y == Some(Str(v)))
  {
    hide Bordered, Strip, DropCommas, Doubled, ReadQuoted, Verbatim;
    ScalarKeptExactlyWhen(val, v);
    var r := ToYamlScalar(val);
    forall n: nat | v == Decimal(n) ensures Kept(v) && ReadYaml(v) == Some(Int(n)) { NumberReads(v, n); }
    forall text | v == "\"" + text + "\"" ensures Kept(v) && ReadYaml(v) == Some(DoubleQuoted(text)) {
      QuotedReads(v, text);
    }
    forall text | v == "[" + text + "]" ensures Kept(v) && ReadYaml(v) == Some(Flow(v)) { ListReads(v, text); }
  }

  lemma NumberReads(v: string, n: nat)
    requires v == Decimal(n)
    ensures Kept(v) && ReadYaml(v) == Some(Int(n))
  {
    DigitsOfDecimal(n);
    assert IsDigit(v[0]);
    forall c | c in v ensures c in "0123456789" { DigitsAre(c); }
  }

  lemma QuotedReads(v: string, text: string)
    requires v == "\"" + text + "\""
    ensures Kept(v) && ReadYaml(v) == Some(DoubleQuoted(text))
  {
    assert v[0] == '"' && v[|v| - 1] == '"' && v[1..|v| - 1] == text;
    assert !IsDigit(v[0]);
  }

  lemma ListReads(v: string, text: string)
    requires v == "[" + text + "]"
    ensures Kept(v) && ReadYaml(v) == Some(Flow(v))
  {
    assert v[0] == '[' && v[|v| - 1] == ']' && !IsDigit(v[0]);
  }

  // ---------------------------------------------------------------- module headers

  /** A line that opens a module: the word, white space, a name in double quotes, a brace, and white space around. */
  predicate Header(line: string, name: string, lead: string, gap: string, between: string, trail: string) {
    && line == lead + ("module" + (gap + ("\"" + (name + ("\"" + (between + ("{" + trail)))))))
    && AllSpace(lead) && AllSpace(gap) && gap != "" && AllSpace(between) && AllSpace(trail)
    && name != "" && '"' !in name
  }

  ghost predicate OpensModule(line: string, name: string) {
    exists lead, gap, between, trail :: Header(line, name, lead, gap, between, trail)
  }

  lemma {:induction false} QuoteIsAt(name: string, rest: string)
    requires '"' !in name
    ensures QuoteAt(name + ("\"" + rest)) == |name|
  {
    var s := name + ("\"" + rest);
    if name == "" {
      assert s == "\"" + rest;
    } else {
      assert name[0] in name && s[1..] == name[1..] + ("\"" + rest);
      QuoteIsAt(name[1..], rest);
    }
  }

  lemma HeaderNames(line: string, name: string)
    requires OpensModule(line, name)
    ensures ModuleName(line) == Some(name)
  {
    hide PyText.IsSpace, AllSpace, LStrip, RStrip, QuoteAt;
    var lead, gap, between, trail :| Header(line, name, lead, gap, between, trail);
    var tail := between + ("{" + trail);
    var quoted := "\"" + (name + ("\"" + tail));
    var t := "module" + (gap + quoted);
    NoSpaces();
    assert t[0] == 'm' && quoted[0] == '"';
    StripsLead(lead, t);
    assert t[..6] == "module" && t[6..] == gap + quoted;
    StripsLead(gap, quoted);
    assert quoted[1..] == name + ("\"" + tail);
    QuoteIsAt(name, tail);
    assert quoted[|name| + 2..] == tail && quoted[1..|name| + 1] == name;
    assert ("{" + trail)[0] == '{';
    StripsLead(between, "{" + trail);
    StripsTrail("{", trail);
  }

  lemma NoSpaces()
    ensures !PyText.IsSpace('m') && !PyText.IsSpace('"') && !PyText.IsSpace('{')
  {
  }

  lemma {:induction false} QuoteFound(s: string)
    ensures QuoteAt(s) <= |s| && '"' !in s[..QuoteAt(s)] && (QuoteAt(s) < |s| ==> s[QuoteAt(s)] == '"')
  {
    if s != "" && s[0] != '"' {
      QuoteFound(s[1..]);
      var n := QuoteAt(s);
      assert s[..n] == [s[0]] + s[1..][..n - 1];
    }
  }

  lemma BraceAlone(v: string) returns (between: string, trail: string)
    requires Strip(v) == "{"
    ensures v == between + ("{" + trail) && AllSpace(between) && AllSpace(trail)
  {
    hide PyText.IsSpace, AllSpace, LStrip, RStrip;
    var w := LStrip(v);
    LStripFacts(v);
    RStripFacts(w);
    between, trail := v[..|v| - |w|], w[1..];
    assert w[..1] == "{" && w == "{" + trail && w[|RStrip(w)|..] == trail;
  }

  lemma QuotedName(u: string) returns (name: string, v: string)
    requires u != "" && u[0] == '"' && QuoteAt(u[1..]) < |u| - 1
    ensures name == u[1..QuoteAt(u[1..]) + 1] && v == u[QuoteAt(u[1..]) + 2..]
    ensures u == "\"" + (name + ("\"" + v)) && '"' !in name
  {
    hide QuoteAt;
    var n := QuoteAt(u[1..]);
    QuoteFound(u[1..]);
    name, v := u[1..n + 1], u[n + 2..];
    assert name == u[1..][..n];
  }

  lemma HeaderParts(line: string, name: string) returns (t: string, u: string)
    requires ModuleName(line) == Some(name)
    ensures t == LStrip(line) && "module" <= t && u == LStrip(t[6..]) && |u| != |t| - 6
    ensures u != "" && u[0] == '"' && name == u[1..QuoteAt(u[1..]) + 1] && name != ""
    ensures QuoteAt(u[1..]) < |u| - 1 && Strip(u[QuoteAt(u[1..]) + 2..]) == "{"
  {
    hide PyText.IsSpace, LStrip, Strip, QuoteAt;
    t := LStrip(line);
    u := LStrip(t[6..]);
  }

  lemma LeadOf(s: string) returns (lead: string)
    ensures s == lead + LStrip(s) && AllSpace(lead) && |lead| == |s| - |LStrip(s)|
  {
    hide PyText.IsSpace, AllSpace, LStrip;
    LStripFacts(s);
    lead := s[..|s| - |LStrip(s)|];
  }

  lemma WordOf(t: string) returns (rest: string)
    requires "module" <= t
    ensures t == "module" + rest && rest == t[6..] && |rest| == |t| - 6
  {
    rest := t[6..];
  }

  lemma NamedIsHeader(line: string, name: string)
    requires ModuleName(line) == Some(name)
    ensures OpensModule(line, name)
  {
    hide PyText.IsSpace, AllSpace, LStrip, Strip, QuoteAt, ModuleName, OpensModule, Header;
    var t, u := HeaderParts(line, name);
    var rest := WordOf(t);
    var lead := LeadOf(line);
    var gap := LeadOf(rest);
    var word, v := QuotedName(u);
    var between, trail := BraceAlone(v);
    PartsMakeHeader(line, name, lead, gap, between, trail, t, rest, u, v);
  }

  lemma PartsMakeHeader(line: string, name: string, lead: string, gap: string, between: string, trail: string,
                        t: string, rest: string, u: string, v: string)
    requires line == lead + t && t == "module" + rest && rest == gap + u && |u| != |rest|
    requires u == "\"" + (name + ("\"" + v)) && v == between + ("{" + trail)
    requires AllSpace(lead) && AllSpace(gap) && AllSpace(between) && AllSpace(trail) && name != "" && '"' !in name
    ensures OpensModule(line, name)
  {
    hide AllSpace;
    assert Header(line, name, lead, gap, between, trail);
  }

  /** A module is opened by exactly the lines of this form, up to a comment. */
  lemma ModulesOpenExactlyWhen(line: string, name: string)
    ensures ModuleName(Uncommented(line)) == Some(name) <==> OpensModule(Uncommented(line), name)
  {
    hide OpensModule, ModuleName, Uncommented;
    if OpensModule(Uncommented(line), name) { HeaderNames(Uncommented(line), name); }
    if ModuleName(Uncommented(line)) == Some(name) { NamedIsHeader(Uncommented(line), name); }
  }
}
