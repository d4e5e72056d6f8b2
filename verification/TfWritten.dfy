/** Nested mappings written plainly, one assignment per line and blocks indented, come back as they were. */
module TfWritten {
  import opened PyText
  import opened Text
  import opened TfScanners
  import opened TfParser
  import opened TfRoundTrip

  datatype Entry = Leaf(key: string, val: string) | Nest(key: string, entries: seq<Entry>)

  function Written(entries: seq<Entry>, indent: string): seq<Item> {
    if entries == [] then []
    else
      [match entries[0]
       case Leaf(key, val) => Assign(indent + (key + (" = " + val)), key, val)
       case Nest(key, inner) =>
         Block(indent + (key + (" = " + "{")), key, Written(inner, indent + "  "), indent + "}")]
      + Written(entries[1..], indent)
  }

  /** The mapping, the last of several entries of one key winning. */
  function Mapping(entries: seq<Entry>, acc: map<string, Value>): map<string, Value> {
    if entries == [] then acc
    else
      match entries[0]
      case Leaf(key, val) => Mapping(entries[1..], acc[key := Scalar(ToYamlScalar(val))])
      case Nest(key, inner) => Mapping(entries[1..], acc[key := Object(Mapping(inner, map[]))])
  }

  /** Letters, digits and underscores. */
  predicate IsKey(key: string) {
    key != "" && forall c :: c in key ==> 'a' <= c <= 'z' || 'A' <= c <= 'Z' || '0' <= c <= '9' || c == '_'
  }

  /** A value on one line, without white space around it, a comment in it, or unbalanced braces. */
  predicate IsPlain(val: string) {
    && val != "" && !PyText.IsSpace(val[0]) && !PyText.IsSpace(val[|val| - 1])
    && NoBreaks(val) && CommentAt(START, val) == |val|
  }

  predicate Writable(entries: seq<Entry>) {
    entries == [] ||
    (IsKey(entries[0].key) && Writable(entries[1..]) &&
     match entries[0]
     case Leaf(_, val) => IsPlain(val) && val[0] != '{' && Depth(val) == 0
     case Nest(_, inner) => Writable(inner))
  }

  lemma KeyIsWord(key: string)
    requires IsKey(key)
    ensures key != "" && forall c :: c in key ==> IsWord(c)
  {
  }

  predicate IsIndent(s: string) {
    forall k :: 0 <= k < |s| ==> s[k] == ' '
  }

  // ---------------------------------------------------------------- one written line

  lemma {:induction false} LStripIndent(indent: string, s: string)
    requires IsIndent(indent) && s != "" && !PyText.IsSpace(s[0])
    ensures LStrip(indent + s) == s
  {
    if indent == "" {
      assert indent + s == s;
    } else {
      assert (indent + s)[1..] == indent[1..] + s;
      LStripIndent(indent[1..], s);
    }
  }

  lemma HarmlessLead(indent: string, key: string)
    requires IsIndent(indent) && forall c :: c in key ==> IsWord(c)
    ensures AllHarmless(indent + (key + " = "))
  {
  }

  lemma Regroup(a: string, b: string, c: string, d: string)
    ensures a + (b + (c + d)) == a + (b + c) + d
  {
  }

  /** Nothing of a written line is cut off. */
  lemma WrittenIsUncommented(indent: string, key: string, val: string)
    requires IsIndent(indent) && (forall c :: c in key ==> IsWord(c))
    requires val != "" && !PyText.IsSpace(val[|val| - 1]) && CommentAt(START, val) == |val|
    ensures Uncommented(indent + (key + (" = " + val))) == indent + (key + (" = " + val))
  {
    hide PyText.IsSpace, CommentAt, AllHarmless, IsWord, IsIndent, Count, RStrip, Uncommented;
    var lead := indent + (key + " = ");
    Regroup(indent, key, " = ", val);
    HarmlessLead(indent, key);
    HarmlessText(lead, val, "{}"[0]);
    NothingCutOff(lead + val);
  }

  lemma NothingCutOff(raw: string)
    requires raw != "" && !PyText.IsSpace(raw[|raw| - 1]) && CommentAt(START, raw) == |raw|
    ensures Uncommented(raw) == raw
  {
  }

  lemma {:induction false} WordEndAt(key: string, s: string)
    requires (forall c :: c in key ==> IsWord(c)) && (s == "" || !IsWord(s[0]))
    ensures WordEnd(key + s) == |key|
  {
    if key == "" {
      assert key + s == s;
    } else {
      assert key[0] in key && (key + s)[1..] == key[1..] + s;
      WordEndAt(key[1..], s);
    }
  }

  lemma WrittenKeyValue(key: string, val: string)
    requires IsKey(key) && val != "" && !PyText.IsSpace(val[0]) && !PyText.IsSpace(val[|val| - 1])
    ensures KeyValue(key + (" = " + val)) == Some((key, val))
  {
    hide PyText.IsSpace, RStrip, LStrip, WordEnd;
    var line := key + (" = " + val);
    SpaceBlankEquals();
    WordEndAt(key, " = " + val);
    assert line[|key|..] == " = " + val && line[..|key|] == key;
    assert " = " + val == " " + ("= " + val) && ("= " + val)[1..] == " " + val;
    LStripIndent(" ", "= " + val);
    LStripIndent(" ", val);
    RStripKeeps(val);
  }

  lemma SpaceBlankEquals()
    ensures IsIndent(" ") && !PyText.IsSpace('=') && !IsWord(' ')
  {
  }

  lemma WordIsNoSpace(key: string)
    requires IsKey(key)
    ensures !PyText.IsSpace(key[0])
  {
    assert key[0] in key;
  }

  lemma WrittenLine(indent: string, key: string, val: string)
    requires IsIndent(indent) && IsKey(key) && IsPlain(val)
    ensures var raw := indent + (key + (" = " + val)); KeyValue(Clean(raw)) == Some((key, val))
  {
    hide PyText.IsSpace, RStrip, LStrip, CommentAt, KeyValue, IsWord, NoBreaks, Uncommented;
    var line := key + (" = " + val);
    KeyIsWord(key);
    WrittenIsUncommented(indent, key, val);
    WordIsNoSpace(key);
    LStripIndent(indent, line);
    RStripKeeps(line);
    WrittenKeyValue(key, val);
  }

  lemma WrittenHasNoBreaks(indent: string, key: string, val: string)
    requires IsIndent(indent) && IsKey(key) && NoBreaks(val)
    ensures NoBreaks(indent + (key + (" = " + val)))
  {
  }

  lemma BraceIsPlain()
    ensures IsPlain("{")
  {
  }

  lemma ClosingIsClean(indent: string)
    requires IsIndent(indent)
    ensures NoBreaks(indent + "}") && Clean(indent + "}") == "}"
  {
    hide PyText.IsSpace, RStrip, LStrip, CommentAt, AllHarmless;
    BracesAreNoSpace();
    HarmlessIndent(indent);
    HarmlessText(indent, "}", "{}"[0]);
    ClosingHasNoComment();
    NothingCutOff(indent + "}");
    LStripIndent(indent, "}");
    RStripKeeps("}");
  }

  lemma HarmlessIndent(indent: string)
    requires IsIndent(indent)
    ensures AllHarmless(indent)
  {
  }

  lemma ClosingHasNoComment()
    ensures CommentAt(START, "}") == 1
  {
  }

  // ---------------------------------------------------------------- the round trip

  lemma {:induction false} WrittenIsWellLaid(entries: seq<Entry>, indent: string)
    requires Writable(entries) && IsIndent(indent)
    ensures WellLaid(Written(entries, indent))
    decreases entries
  {
    hide Clean, KeyValue, NoBreaks, Depth, IsPlain, IsKey, IsIndent;
    if entries != [] {
      WrittenIsWellLaid(entries[1..], indent);
      var items := Written(entries, indent);
      assert items[1..] == Written(entries[1..], indent);
      match entries[0]
      case Leaf(key, val) =>
        PlainHasNoBreaks(val);
        WrittenLine(indent, key, val);
        WrittenHasNoBreaks(indent, key, val);
      case Nest(key, inner) =>
        BraceIsPlain();
        PlainHasNoBreaks("{");
        WrittenLine(indent, key, "{");
        WrittenHasNoBreaks(indent, key, "{");
        ClosingIsClean(indent);
        DeeperIndent(indent);
        WrittenIsWellLaid(inner, indent + "  ");
    }
  }

  lemma PlainHasNoBreaks(val: string)
    requires IsPlain(val)
    ensures NoBreaks(val) && val != ""
  {
  }

  lemma DeeperIndent(indent: string)
    requires IsIndent(indent)
    ensures IsIndent(indent + "  ")
  {
  }

  lemma {:induction false} WrittenMeans(entries: seq<Entry>, indent: string, acc: map<string, Value>)
    ensures Meaning(Written(entries, indent), acc) == Mapping(entries, acc)
    decreases entries
  {
    hide ToYamlScalar;
    if entries != [] {
      var items := Written(entries, indent);
      assert items[1..] == Written(entries[1..], indent);
      match entries[0]
      case Leaf(key, val) => WrittenMeans(entries[1..], indent, acc[key := Scalar(ToYamlScalar(val))]);
      case Nest(key, inner) =>
        WrittenMeans(inner, indent + "  ", map[]);
        WrittenMeans(entries[1..], indent, acc[key := Object(Mapping(inner, map[]))]);
    }
  }

  /** parse_assignments recovers every nested mapping written one assignment per line. */
  lemma WrittenIsRecovered(entries: seq<Entry>, indent: string)
    requires Writable(entries) && IsIndent(indent)
    ensures var lines := Lines(Written(entries, indent));
      Assignments(lines, map[]) == Parsed(Mapping(entries, map[]), |lines|)
  {
    hide Assignments, Writable, WellLaid, Written, Lines, Mapping, Meaning;
    var items := Written(entries, indent);
    WrittenIsWellLaid(entries, indent);
    LayoutIsRecovered(items, map[], []);
    WrittenMeans(entries, indent, map[]);
    NoMoreLines(Mapping(entries, map[]));
    assert Lines(items) + [] == Lines(items);
  }

  // ---------------------------------------------------------------- objects on one line

  lemma OneLineAtMost(line: string)
    ensures |Assignments([line], map[]).mapping| <= 1
  {
  }

  lemma SplitWithoutBreaks(s: string)
    requires NoBreaks(s)
    ensures SplitLines(s) == if s == "" then [] else [s]
  {
  }

  lemma InnerHasNoBreaks(s: string)
    requires NoBreaks(s)
    ensures NoBreaks(Inner(s))
  {
    hide PyText.IsSpace, IsBreak, LStrip, RStrip;
    LStripFacts(s);
    RStripFacts(LStrip(s));
    forall c | c in Strip(s) ensures c in s { assert c in LStrip(s); }
    forall c | c in Inner(s) ensures c in Strip(s) {}
  }

  /** An object on one line yields one entry at the most, however many its text lists. */
  lemma OneLineObjectHasOneEntry(s: string)
    requires NoBreaks(s)
    ensures |ObjectOf(s)| <= 1
  {
    hide NoBreaks, Assignments, Inner, SplitLines;
    InnerHasNoBreaks(s);
    SplitWithoutBreaks(Inner(s));
    NoMoreLines(map[]);
    OneLineAtMost(Inner(s));
  }

  lemma {:induction false} SpacesHaveNoComment(st: State, a: string, trail: string)
    requires CommentAt(st, a) == |a| && IsIndent(trail)
    ensures CommentAt(st, a + trail) == |a + trail|
    decreases |a| + |trail|
  {
    var s := a + trail;
    if a != "" {
      assert s[1..] == a[1..] + trail && s[0] == a[0];
      MarkerBeforeSpaces(a, trail);
      SpacesHaveNoComment(Step(st, a[0]), a[1..], trail);
    } else if trail != "" {
      assert s == trail && s[1..] == "" + trail[1..];
      SpacesHaveNoComment(Step(st, trail[0]), "", trail[1..]);
    }
  }

  lemma MarkerBeforeSpaces(a: string, trail: string)
    requires a != "" && IsIndent(trail)
    ensures IsMarker(a + trail) <==> IsMarker(a)
  {
    var s := a + trail;
    assert |s| > 1 ==> s[1] == if |a| > 1 then a[1] else trail[0];
  }

  lemma {:induction false} RStripTrail(a: string, trail: string)
    requires a != "" && !PyText.IsSpace(a[|a| - 1]) && IsIndent(trail)
    ensures RStrip(a + trail) == a
  {
    var s := a + trail;
    if trail == "" {
      assert s == a;
    } else {
      assert s[..|s| - 1] == a + trail[..|trail| - 1] && PyText.IsSpace(s[|s| - 1]);
      RStripTrail(a, trail[..|trail| - 1]);
    }
  }

  /** White space behind a written line is not seen. */
  lemma TrailIsIgnored(raw: string, trail: string)
    requires raw != "" && !PyText.IsSpace(raw[|raw| - 1]) && CommentAt(START, raw) == |raw| && IsIndent(trail)
    ensures Clean(raw + trail) == Clean(raw)
  {
    hide PyText.IsSpace, CommentAt, RStrip, Strip;
    SpacesHaveNoComment(START, raw, trail);
    RStripTrail(raw, trail);
    NothingCutOff(raw);
    var s := raw + trail;
    assert s[..|s|] == s;
  }

  lemma WrittenHasNoComment(indent: string, key: string, val: string)
    requires IsIndent(indent) && IsKey(key) && IsPlain(val)
    ensures var raw := indent + (key + (" = " + val));
      raw != "" && !PyText.IsSpace(raw[|raw| - 1]) && CommentAt(START, raw) == |raw|
  {
    hide PyText.IsSpace, CommentAt, AllHarmless, IsWord, IsIndent, Count, NoBreaks;
    Regroup(indent, key, " = ", val);
    KeyIsWord(key);
    HarmlessLead(indent, key);
    HarmlessText(indent + (key + " = "), val, "{}"[0]);
  }

  lemma ConcatHasNoBreaks(a: string, b: string)
    requires NoBreaks(a) && NoBreaks(b)
    ensures NoBreaks(a + b)
  {
    hide IsBreak;
  }

  lemma IndentHasNoBreaks(s: string)
    requires IsIndent(s)
    ensures NoBreaks(s)
  {
    forall c | c in s ensures c == ' ' {}
  }

  /** The text after the first equals sign is the value, commas and further entries included. */
  lemma OneLineObject(lead: string, key: string, val: string, trail: string)
    requires IsIndent(lead) && IsKey(key) && IsPlain(val) && val[0] != '{' && IsIndent(trail)
    ensures ObjectOf("{" + (lead + (key + (" = " + val)) + trail) + "}") == map[key := Scalar(ToYamlScalar(val))]
  {
    hide NoBreaks, Assignments, Inner, SplitLines, IsKey, IsPlain, Clean, KeyValue, ToYamlScalar, IsIndent, CommentAt;
    var raw := lead + (key + (" = " + val));
    var line := raw + trail;
    InnerOfBraces(line);
    PlainHasNoBreaks(val);
    WrittenHasNoBreaks(lead, key, val);
    IndentHasNoBreaks(trail);
    ConcatHasNoBreaks(raw, trail);
    WrittenHasNoComment(lead, key, val);
    SplitWithoutBreaks(line);
    TrailIsIgnored(raw, trail);
    WrittenLine(lead, key, val);
    NoBraceNoKey();
    NextLine([line], map[]);
    assert [line][1..] == [];
    NoMoreLines(map[key := Scalar(ToYamlScalar(val))]);
  }

  /** The entries of a mapping side by side, as in a = 1, b = 2. */
  function SideBySide(entries: seq<Entry>): string
    requires entries != [] && forall e :: e in entries ==> e.Leaf?
  {
    var e := entries[0];
    assert e in entries;
    if |entries| == 1 then e.key + (" = " + e.val) else e.key + (" = " + e.val) + (", " + SideBySide(entries[1..]))
  }

  function OnOneLine(entries: seq<Entry>): string
    requires forall e :: e in entries ==> e.Leaf?
  {
    if entries == [] then "{}" else "{" + (" " + SideBySide(entries) + " ") + "}"
  }

  lemma {:induction false} SideBySideHasNoBreaks(entries: seq<Entry>)
    requires entries != [] && (forall e :: e in entries ==> e.Leaf?) && Writable(entries)
    ensures NoBreaks(SideBySide(entries))
  {
    hide NoBreaks, IsIndent, IsKey, IsPlain, Depth;
    var e := entries[0];
    assert e in entries;
    PlainHasNoBreaks(e.val);
    EmptyIsIndent();
    WrittenHasNoBreaks("", e.key, e.val);
    assert "" + (e.key + (" = " + e.val)) == e.key + (" = " + e.val);
    if |entries| > 1 {
      CommaHasNoBreaks();
      SideBySideHasNoBreaks(entries[1..]);
      ConcatHasNoBreaks(", ", SideBySide(entries[1..]));
      ConcatHasNoBreaks(e.key + (" = " + e.val), ", " + SideBySide(entries[1..]));
    }
  }

  lemma EmptyIsIndent()
    ensures IsIndent("") && IsIndent(" ")
  {
  }

  lemma CommaHasNoBreaks()
    ensures NoBreaks(", ") && NoBreaks(" ") && NoBreaks("{") && NoBreaks("}")
  {
  }

  lemma {:induction false} MappingHas(entries: seq<Entry>, acc: map<string, Value>, key: string)
    requires key in acc || exists i :: 0 <= i < |entries| && entries[i].key == key
    ensures key in Mapping(entries, acc)
    decreases |entries|
  {
    hide ToYamlScalar;
    if entries != [] {
      var e := entries[0];
      var v := if e.Leaf? then Scalar(ToYamlScalar(e.val)) else Object(Mapping(e.entries, map[]));
      if key !in acc[e.key := v] {
        var i :| 0 <= i < |entries| && entries[i].key == key;
        assert entries[1..][i - 1] == entries[i];
      }
      MappingHas(entries[1..], acc[e.key := v], key);
    }
  }

  lemma TwoKeys(m: map<string, Value>, a: string, b: string)
    requires a in m && b in m && a != b
    ensures |m| >= 2
  {
    assert |m.Keys - {a}| >= 1 by { assert b in m.Keys - {a}; }
  }

  /** A mapping written on one line comes back if and only if it has at most one entry. */
  lemma OneLineComesBackExactlyWhen(entries: seq<Entry>)
    requires Writable(entries) && (forall e :: e in entries ==> e.Leaf?)
    requires forall i, j :: 0 <= i < j < |entries| ==> entries[i].key != entries[j].key
    ensures ObjectOf(OnOneLine(entries)) == Mapping(entries, map[]) <==> |entries| <= 1
  {
    hide ObjectOf, Mapping, NoBreaks, IsPlain, IsKey, IsIndent, ToYamlScalar, SideBySide, Depth;
    EmptyIsIndent();
    CommaHasNoBreaks();
    if entries == [] {
      NothingOnOneLine();
    } else if |entries| == 1 {
      var e := entries[0];
      assert e in entries;
      OneSideBySide(entries);
      Regroup(" ", e.key, " = ", e.val);
      OneLineObject(" ", e.key, e.val, " ");
    } else {
      SideBySideHasNoBreaks(entries);
      ConcatHasNoBreaks(" ", SideBySide(entries));
      ConcatHasNoBreaks(" " + SideBySide(entries), " ");
      ConcatHasNoBreaks("{", " " + SideBySide(entries) + " ");
      ConcatHasNoBreaks("{" + (" " + SideBySide(entries) + " "), "}");
      OneLineObjectHasOneEntry(OnOneLine(entries));
      MappingHas(entries, map[], entries[0].key);
      MappingHas(entries, map[], entries[1].key);
      TwoKeys(Mapping(entries, map[]), entries[0].key, entries[1].key);
    }
  }

  lemma OneSideBySide(entries: seq<Entry>)
    requires |entries| == 1 && (forall e :: e in entries ==> e.Leaf?)
    ensures var e := entries[0];
      && e.Leaf? && SideBySide(entries) == e.key + (" = " + e.val)
      && Mapping(entries, map[]) == map[e.key := Scalar(ToYamlScalar(e.val))]
  {
    hide ToYamlScalar;
    assert entries[0] in entries && entries[1..] == [];
  }

  lemma NothingOnOneLine()
    ensures ObjectOf("{}") == Mapping([], map[]) == map[]
  {
    hide Assignments, Inner;
    assert "{" + "" + "}" == "{}";
    InnerOfBraces("");
    NoMoreLines(map[]);
  }

  // ---------------------------------------------------------------- scalars

  /** The text of a single-quoted YAML scalar after its opening quote: a doubled quote stands for one. */
  function ReadQuoted(s: string): Option<string> {
    if s == "'" then Some("")
    else if "''" <= s then
      var more := ReadQuoted(s[2..]);
      if more.None? then None else Some("'" + more.value)
    else if s != "" && s[0] != '\'' then
      var more := ReadQuoted(s[1..]);
      if more.None? then None else Some([s[0]] + more.value)
    else None
  }

  lemma ReadPair(t: string)
    ensures ReadQuoted("''" + t) == var more := ReadQuoted(t); if more.None? then None else Some("'" + more.value)
  {
  }

  lemma ReadChar(c: char, t: string)
    requires c != '\''
    ensures ReadQuoted([c] + t) == var more := ReadQuoted(t); if more.None? then None else Some([c] + more.value)
  {
    var s := [c] + t;
    assert s[0] == c && s[1..] == t;
  }

  lemma {:induction false} DoubledReadsBack(v: string)
    ensures ReadQuoted(Doubled(v) + "'") == Some(v)
  {
    hide ReadQuoted;
    if v == "" {
      ClosingQuote();
    } else {
      DoubledReadsBack(v[1..]);
      var t := Doubled(v[1..]) + "'";
      assert v == [v[0]] + v[1..];
      if v[0] == '\'' {
        assert Doubled(v) + "'" == "''" + t;
        ReadPair(t);
      } else {
        assert Doubled(v) + "'" == [v[0]] + t;
        ReadChar(v[0], t);
      }
    }
  }

  lemma ClosingQuote()
    ensures ReadQuoted("" + "'") == Some("")
  {
  }

  /** A scalar is kept as it is, or it is a quoted scalar that a YAML reader takes for the same text. */
  lemma ScalarReadsBack(val: string)
    ensures var v, r := DropCommas(Strip(val)), ToYamlScalar(val);
      if Verbatim(v) then r == v else r != "" && r[0] == '\'' && ReadQuoted(r[1..]) == Some(v)
  {
    hide Verbatim, DropCommas, Strip, Doubled, ReadQuoted;
    var v := DropCommas(Strip(val));
    DoubledReadsBack(v);
    var r := "'" + Doubled(v) + "'";
    assert r[1..] == Doubled(v) + "'";
  }
}
