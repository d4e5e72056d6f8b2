/** The assignment parser of hack/scripts/tf2yaml.py: parse_assignments and parse_object call each other. */
module TfParser {
  import opened PyText
  import opened Text
  import opened TfScanners

  datatype Value = Scalar(yaml: string) | Object(entries: map<string, Value>)

  // ---------------------------------------------------------------- lines

  /** The line breaks of str.splitlines; a carriage return takes a following newline with it. */
  predicate IsBreak(c: char) {
    || c in "\n\r" || c == '\U{0B}' || c == '\U{0C}' || '\U{1C}' <= c <= '\U{1E}'
    || c == '\U{85}' || c == '\U{2028}' || c == '\U{2029}'
  }

  function LineEnd(s: string): (n: nat)
    ensures n <= |s|
    ensures n == |s| || IsBreak(s[n])
  {
    if s == "" || IsBreak(s[0]) then 0 else 1 + LineEnd(s[1..])
  }

  function SplitLines(s: string): (lines: seq<string>)
    ensures s == "" || Size(lines) <= |s| + 1
    ensures s == "" ==> lines == []
    decreases |s|
  {
    if s == "" then []
    else
      var n := LineEnd(s);
      if n == |s| then [s]
      else
        var k := if "\r\n" <= s[n..] then n + 2 else n + 1;
        [s[..n]] + SplitLines(s[k..])
  }

  /** The characters of the lines, each line counted one longer. */
  function Size(lines: seq<string>): nat {
    if lines == [] then 0 else |lines[0]| + 1 + Size(lines[1..])
  }

  function Join(lines: seq<string>): (s: string)
    requires lines != []
    ensures |s| + 1 == Size(lines)
  {
    if |lines| == 1 then lines[0] else lines[0] + "\n" + Join(lines[1..])
  }

  // ---------------------------------------------------------------- one line

  /** What parse_assignments looks at. */
  function Clean(raw: string): string {
    Strip(Uncommented(raw))
  }

  predicate IsWord(c: char) {
    'A' <= c <= 'Z' || 'a' <= c <= 'z' || '0' <= c <= '9' || c == '_'
  }

  function WordEnd(s: string): (n: nat)
    ensures n <= |s|
  {
    if s == "" || !IsWord(s[0]) then 0 else 1 + WordEnd(s[1..])
  }

  /** A key, an equals sign and a value, on a line without white space around it. */
  function KeyValue(line: string): Option<(string, string)> {
    var n := WordEnd(line);
    var rest := LStrip(line[n..]);
    if n == 0 || rest == "" || rest[0] != '=' then None
    else
      var val := Strip(rest[1..]);
      if val == "" then None else Some((line[..n], val))
  }

  predicate StartsWith(s: string, c: char) {
    s != "" && s[0] == c
  }

  predicate EndsWith(s: string, c: char) {
    s != "" && s[|s| - 1] == c
  }

  function DropCommas(s: string): string {
    if EndsWith(s, ',') then DropCommas(s[..|s| - 1]) else s
  }

  function Doubled(s: string): string {
    if s == "" then "" else (if s[0] == '\'' then "''" else [s[0]]) + Doubled(s[1..])
  }

  predicate Verbatim(v: string) {
    || (StartsWith(v, '[') && EndsWith(v, ']'))
    || v == "true" || v == "false"
    || (v != "" && forall c :: c in v ==> '0' <= c <= '9')
    || (StartsWith(v, '"') && EndsWith(v, '"'))
    || (StartsWith(v, '\'') && EndsWith(v, '\''))
  }

  /** to_yaml_scalar */
  function ToYamlScalar(val: string): string {
    var v := DropCommas(Strip(val));
    if Verbatim(v) then v else "'" + Doubled(v) + "'"
  }

  // ---------------------------------------------------------------- the parser

  /** How many of the lines it takes to balance braces that are already at depth: up to the first that does. */
  function BlockLength(lines: seq<string>, depth: int): (n: nat)
    ensures n <= |lines|
  {
    if lines == [] || depth <= 0 then 0
    else 1 + BlockLength(lines[1..], depth + Depth(Uncommented(lines[0])))
  }

  function UncommentedAll(lines: seq<string>): (r: seq<string>)
    ensures |r| == |lines|
  {
    if lines == [] then [] else [Uncommented(lines[0])] + UncommentedAll(lines[1..])
  }

  /** The text of a block that starts with val on the first line and takes n more. */
  function BlockText(val: string, lines: seq<string>, n: nat): string
    requires n <= |lines|
  {
    Join([val] + UncommentedAll(lines[..n]))
  }

  predicate OpensBlock(val: string) {
    StartsWith(val, '{') && !EndsWith(val, '}')
  }

  /** The text of an object without its outer braces. */
  function Inner(s: string): (t: string)
  {
    var a := Strip(s);
    var b := if StartsWith(a, '{') then a[1..] else a;
    if EndsWith(b, '}') then b[..|b| - 1] else b
  }

  datatype Parsed = Parsed(mapping: map<string, Value>, used: nat)

  /** parse_assignments on the lines that are left, with what it has parsed so far. */
  function Assignments(lines: seq<string>, acc: map<string, Value>): (p: Parsed)
    ensures p.used <= |lines|
    decreases Size(lines), 0
  {
    if lines == [] then Parsed(acc, 0)
    else
      var line := Clean(lines[0]);
      LineIsSmaller(lines);
      if line == "}" then Parsed(acc, 1)
      else
        match KeyValue(line)
        case None => After(1, Assignments(lines[1..], acc))
        case Some((key, val)) =>
          if OpensBlock(val) then
            var n := BlockLength(lines[1..], Depth(val));
            BlockIsSmaller(lines, n);
            var obj := ObjectOf(BlockText(val, lines[1..], n));
            After(1 + n, Assignments(lines[1 + n..], acc[key := Object(obj)]))
          else
            var v := if StartsWith(val, '{') then Object(ObjectOf(val)) else Scalar(ToYamlScalar(val));
            After(1, Assignments(lines[1..], acc[key := v]))
  }

  function After(n: nat, p: Parsed): Parsed {
    Parsed(p.mapping, n + p.used)
  }

  /** parse_object */
  function ObjectOf(s: string): map<string, Value>
    decreases |s| + 1, 1
  {
    InnerIsSmaller(s);
    Assignments(SplitLines(Inner(s)), map[]).mapping
  }

  // ---------------------------------------------------------------- why the recursion ends

  lemma StripShrinks(s: string)
    ensures |Strip(s)| <= |s|
  {
    LStripFacts(s);
    RStripFacts(LStrip(s));
  }

  lemma CleanShrinks(raw: string)
    ensures |Clean(raw)| <= |raw|
  {
    UncommentedIsPrefix(raw);
    StripShrinks(Uncommented(raw));
  }

  lemma ValueIsShorter(line: string)
    ensures KeyValue(line).Some? ==> |KeyValue(line).value.1| + 2 <= |line|
  {
    var n := WordEnd(line);
    LStripFacts(line[n..]);
    var rest := LStrip(line[n..]);
    if rest != "" { StripShrinks(rest[1..]); }
  }

  lemma LineIsSmaller(lines: seq<string>)
    requires lines != []
    ensures Size(lines[1..]) < Size(lines)
    ensures var kv := KeyValue(Clean(lines[0]));
      kv.Some? ==> |kv.value.1| + 1 < Size(lines)
  {
    CleanShrinks(lines[0]);
    ValueIsShorter(Clean(lines[0]));
  }

  lemma {:induction false} SizeOfParts(lines: seq<string>, n: nat)
    requires n <= |lines|
    ensures Size(lines[..n]) + Size(lines[n..]) == Size(lines)
  {
    if n > 0 {
      SizeOfParts(lines[1..], n - 1);
      assert lines[..n][1..] == lines[1..][..n - 1] && lines[1..][n - 1..] == lines[n..];
    } else {
      assert lines[0..] == lines;
    }
  }

  lemma {:induction false} UncommentedIsSmaller(lines: seq<string>)
    ensures Size(UncommentedAll(lines)) <= Size(lines)
  {
    if lines != [] {
      UncommentedIsPrefix(lines[0]);
      UncommentedIsSmaller(lines[1..]);
    }
  }

  lemma BlockIsSmaller(lines: seq<string>, n: nat)
    requires lines != [] && n <= |lines| - 1
    ensures Size(lines[1 + n..]) < Size(lines)
    ensures var kv := KeyValue(Clean(lines[0]));
      kv.Some? ==> |BlockText(kv.value.1, lines[1..], n)| + 1 < Size(lines)
  {
    hide KeyValue, Clean, Uncommented;
    LineIsSmaller(lines);
    SizeOfParts(lines, 1 + n);
    var kv := KeyValue(Clean(lines[0]));
    if kv.Some? {
      CleanShrinks(lines[0]);
      ValueIsShorter(Clean(lines[0]));
      UncommentedIsSmaller(lines[1..][..n]);
      assert lines[..1 + n][1..] == lines[1..][..n];
      assert ([kv.value.1] + UncommentedAll(lines[1..][..n]))[1..] == UncommentedAll(lines[1..][..n]);
    }
  }

  lemma InnerIsSmaller(s: string)
    ensures Size(SplitLines(Inner(s))) <= |s| + 1
  {
    StripShrinks(s);
  }

  // ---------------------------------------------------------------- the loops

  /** Collects a block: the segments after val until its braces balance or the lines end. */
  method CollectBlock(lines: seq<string>, start: nat, val: string) returns (valFull: string, i: nat)
    requires start <= |lines|
    ensures var n := BlockLength(lines[start..], Depth(val));
      i == start + n && valFull == BlockText(val, lines[start..], n)
  {
    hide Uncommented, Depth, Join, UncommentedAll, BlockLength, Count;
    var acc := [val];
    NoLinesYet(lines, start);
    var opens, closes := CountBracesOutsideStrings(val);
    var depth := opens as int - closes as int;
    DepthOf(val);
    i := start;
    while i < |lines| && depth > 0
      invariant start <= i <= |lines|
      invariant acc == [val] + UncommentedAll(lines[start..i])
      invariant BlockLength(lines[start..], Depth(val)) == i - start + BlockLength(lines[i..], depth)
    {
      var seg := StripInlineComments(lines[i]);
      opens, closes := CountBracesOutsideStrings(seg);
      DepthOf(seg);
      UncommentedOneMore(lines[start..i], lines[i]);
      BlockGoesOn(lines[i..], depth);
      assert lines[start..i + 1] == lines[start..i] + [lines[i]] && lines[i..][1..] == lines[i + 1..];
      acc := acc + [seg];
      depth := depth + opens - closes;
      i := i + 1;
    }
    assert lines[start..][..i - start] == lines[start..i];
    BlockStops(lines[i..], depth);
    valFull := Join(acc);
  }

  lemma NoLinesYet(lines: seq<string>, start: nat)
    requires start <= |lines|
    ensures lines[start..start] == [] && UncommentedAll([]) == []
  {
  }

  lemma BlockGoesOn(lines: seq<string>, depth: int)
    requires lines != [] && depth > 0
    ensures BlockLength(lines, depth) == 1 + BlockLength(lines[1..], depth + Depth(Uncommented(lines[0])))
  {
  }

  lemma BlockStops(lines: seq<string>, depth: int)
    requires lines == [] || depth <= 0
    ensures BlockLength(lines, depth) == 0
  {
  }

  lemma DepthOf(s: string)
    ensures Depth(s) == Count(START, s, '{') - Count(START, s, '}')
  {
  }

  lemma {:induction false} UncommentedOneMore(lines: seq<string>, line: string)
    ensures UncommentedAll(lines + [line]) == UncommentedAll(lines) + [Uncommented(line)]
  {
    if lines != [] {
      assert (lines + [line])[1..] == lines[1..] + [line];
      UncommentedOneMore(lines[1..], line);
    }
  }

  lemma OneLineMore(lines: seq<string>, start: nat, i: nat)
    requires start <= i < |lines|
    ensures lines[i..] != [] && lines[i..][0] == lines[i] && lines[i..][1..] == lines[i + 1..]
    ensures Size(lines[i..]) <= Size(lines[start..])
  {
    SizeOfParts(lines[start..], i - start);
    assert lines[start..][i - start..] == lines[i..];
  }

  /** One step of the loop, by what the line is. */
  lemma NextLine(lines: seq<string>, acc: map<string, Value>)
    requires lines != []
    ensures var line := Clean(lines[0]); var kv := KeyValue(line); var p := Assignments(lines, acc);
      && (line == "}" ==> p == Parsed(acc, 1))
      && (line != "}" && kv.None? ==> p == After(1, Assignments(lines[1..], acc)))
      && (line != "}" && kv.Some? ==>
            var (key, val) := kv.value;
            if OpensBlock(val) then
              var n := BlockLength(lines[1..], Depth(val));
              p == After(1 + n,
                         Assignments(lines[1 + n..], acc[key := Object(ObjectOf(BlockText(val, lines[1..], n)))]))
            else if StartsWith(val, '{') then
              p == After(1, Assignments(lines[1..], acc[key := Object(ObjectOf(val))]))
            else
              p == After(1, Assignments(lines[1..], acc[key := Scalar(ToYamlScalar(val))])))
  {
    hide Clean, KeyValue, ObjectOf, BlockText, BlockLength, ToYamlScalar;
  }

  lemma NoMoreLines(acc: map<string, Value>)
    ensures Assignments([], acc) == Parsed(acc, 0)
  {
  }

  method ParseAssignments(lines: seq<string>, start: nat) returns (mapping: map<string, Value>, i: nat)
    requires start <= |lines|
    ensures start <= i <= |lines| && Parsed(mapping, i - start) == Assignments(lines[start..], map[])
    decreases Size(lines[start..]), 0
  {
    hide Clean, KeyValue, ToYamlScalar, Size, BlockText, BlockLength, Uncommented, Strip, Assignments, ObjectOf, Depth;
    mapping, i := map[], start;
    NoMoreLines(mapping);
    while i < |lines|
      invariant start <= i <= |lines|
      invariant Assignments(lines[start..], map[]) == After(i - start, Assignments(lines[i..], mapping))
    {
      OneLineMore(lines, start, i);
      NextLine(lines[i..], mapping);
      CleanIs(lines[i]);
      var uncommented := StripInlineComments(lines[i]);
      var line := Strip(uncommented);
      if line == "" {
        NoKeyInBlank();
        i := i + 1;
        continue;
      }
      if line == "}" {
        i := i + 1;
        return;
      }
      var m := KeyValue(line);
      if m.None? {
        i := i + 1;
        continue;
      }
      var (key, val) := m.value;
      LineIsSmaller(lines[i..]);
      if StartsWith(val, '{') && !EndsWith(val, '}') {
        BlockIsSmaller(lines[i..], BlockLength(lines[i + 1..], Depth(val)));
        var valFull, next := CollectBlock(lines, i + 1, val);
        assert lines[i..][next - i..] == lines[next..];
        var obj := ParseObject(valFull);
        mapping, i := mapping[key := Object(obj)], next;
        continue;
      } else if StartsWith(val, '{') && EndsWith(val, '}') {
        var obj := ParseObject(val);
        mapping := mapping[key := Object(obj)];
      } else {
        mapping := mapping[key := Scalar(ToYamlScalar(val))];
      }
      i := i + 1;
    }
    NoMoreLines(mapping);
  }

  lemma CleanIs(raw: string)
    ensures Clean(raw) == Strip(Uncommented(raw))
  {
  }

  lemma NoKeyInBlank()
    ensures KeyValue("").None?
  {
  }

  method ParseObject(s: string) returns (mapping: map<string, Value>)
    ensures mapping == ObjectOf(s)
    decreases |s| + 1, 1
  {
    hide Strip, SplitLines, Size;
    var inner := Strip(s);
    if StartsWith(inner, '{') { inner := inner[1..]; }
    if EndsWith(inner, '}') { inner := inner[..|inner| - 1]; }
    var lines := SplitLines(inner);
    InnerIsSmaller(s);
    assert lines[0..] == lines;
    var used;
    mapping, used := ParseAssignments(lines, 0);
  }
}
