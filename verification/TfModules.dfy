/** The module blocks of a file: parse_modules in hack/scripts/tf2yaml.py, which counts braces on raw lines. */
module TfModules {
  import opened PyText
  import opened Text
  import opened TfScanners
  import opened TfParser
  import opened TfRoundTrip

  /** How many raw lines it takes until the braces, already at depth, are balanced. */
  function RawLength(lines: seq<string>, depth: int): (n: nat)
    ensures n <= |lines|
  {
    if lines == [] || depth <= 0 then 0 else 1 + RawLength(lines[1..], depth + Depth(lines[0]))
  }

  /** The name on a line that opens a module block: the word, a quoted name, and a brace at the end. */
  function ModuleName(line: string): Option<string> {
    var t := LStrip(line);
    if !("module" <= t) then None
    else
      var u := LStrip(t[6..]);
      if |u| == |t| - 6 || u == "" || u[0] != '"' then None
      else
        var n := QuoteAt(u[1..]);
        if n == 0 || n == |u| - 1 || Strip(u[n + 2..]) != "{" then None else Some(u[1..n + 1])
  }

  function QuoteAt(s: string): (n: nat)
    ensures n <= |s|
  {
    if s == "" || s[0] == '"' then 0 else 1 + QuoteAt(s[1..])
  }

  /** The modules of the lines that are left, with those found so far; of two with one name the later wins. */
  function Modules(lines: seq<string>, acc: map<string, map<string, Value>>): map<string, map<string, Value>>
    decreases |lines|
  {
    if lines == [] then acc
    else
      match ModuleName(Uncommented(lines[0]))
      case None => Modules(lines[1..], acc)
      case Some(name) =>
        var n := RawLength(lines[1..], 1);
        Modules(lines[1 + n..], acc[name := Assignments(lines[1..1 + n], map[]).mapping])
  }

  // ---------------------------------------------------------------- the loops

  method CollectModule(lines: seq<string>, start: nat) returns (blockLines: seq<string>, i: nat)
    requires start <= |lines|
    ensures i == start + RawLength(lines[start..], 1) && blockLines == lines[start..i]
  {
    hide Depth, Count;
    blockLines, i := [], start;
    var depth: int := 1;
    while i < |lines| && depth > 0
      invariant start <= i <= |lines| && blockLines == lines[start..i]
      invariant RawLength(lines[start..], 1) == i - start + RawLength(lines[i..], depth)
    {
      var opens, closes := CountBracesOutsideStrings(lines[i]);
      DepthOf(lines[i]);
      assert lines[i..][1..] == lines[i + 1..];
      blockLines := blockLines + [lines[i]];
      depth := depth + opens - closes;
      i := i + 1;
    }
  }

  method ParseModules(src: string) returns (modules: map<string, map<string, Value>>)
    ensures modules == Modules(SplitLines(src), map[])
  {
    hide Assignments, ModuleName, RawLength, SplitLines, Uncommented;
    modules := map[];
    var lines := SplitLines(src);
    var i := 0;
    assert lines[0..] == lines;
    while i < |lines|
      invariant i <= |lines| && Modules(lines, map[]) == Modules(lines[i..], modules)
    {
      var line := StripInlineComments(lines[i]);
      assert lines[i..][1..] == lines[i + 1..];
      var m := ModuleName(line);
      if m.None? {
        i := i + 1;
        continue;
      }
      var blockLines, next := CollectModule(lines, i + 1);
      assert lines[i..][1..1 + (next - i - 1)] == blockLines && lines[i..][1 + (next - i - 1)..] == lines[next..];
      assert blockLines[0..] == blockLines;
      var mapping, used := ParseAssignments(blockLines, 0);
      modules, i := modules[m.value := mapping], next;
    }
  }

  // ---------------------------------------------------------------- where a block ends

  /** The braces opened but not closed in the lines, those in comments included. */
  function RawSum(lines: seq<string>): int {
    if lines == [] then 0 else Depth(lines[0]) + RawSum(lines[1..])
  }

  /** Collecting stops at exactly the first line after which the raw braces are balanced. */
  lemma {:induction false} RawStopsAtBalance(lines: seq<string>, depth: int)
    ensures var n := RawLength(lines, depth);
      && (forall k :: 0 <= k < n ==> depth + RawSum(lines[..k]) > 0)
      && (n == |lines| || depth + RawSum(lines[..n]) <= 0)
  {
    hide Depth;
    if lines != [] && depth > 0 {
      var d := Depth(lines[0]);
      RawStopsAtBalance(lines[1..], depth + d);
      forall k | 0 < k <= RawLength(lines, depth) ensures RawSum(lines[..k]) == d + RawSum(lines[1..][..k - 1]) {
        assert lines[..k][1..] == lines[1..][..k - 1];
      }
    }
  }

  /** Raw braces, comments included, are balanced on the last line of the block, if more follows, and never before. */
  ghost predicate EndsItself(block: seq<string>, behind: seq<string>) {
    && (forall k :: 0 <= k < |block| ==> 1 + RawSum(block[..k]) > 0)
    && (behind != [] ==> 1 + RawSum(block) <= 0)
  }

  /** Exactly such a block is collected as it is: not cut off, and without lines from behind it. */
  lemma CollectedExactlyWhen(block: seq<string>, behind: seq<string>)
    ensures RawLength(block + behind, 1) == |block| <==> EndsItself(block, behind)
  {
    hide RawSum, RawLength;
    var all := block + behind;
    RawStopsAtBalance(all, 1);
    forall k | 0 <= k <= |block| ensures all[..k] == block[..k] {}
    assert block[..|block|] == block;
  }

  /** The comment of the line, if any, opens as many braces as it closes. */
  predicate CommentBalanced(line: string) {
    Depth(line[CommentAt(START, line)..]) == 0
  }

  lemma BalancedCountsAlike(line: string)
    ensures CommentBalanced(line) <==> Depth(line) == Depth(Uncommented(line))
  {
    hide Depth, Uncommented, CommentAt;
    CommentBracesCount(line);
  }

  /** With balanced comments, counting on raw lines finds the end that the parser would find. */
  lemma {:induction false} RawEndsLikeParsed(lines: seq<string>, depth: int)
    requires forall k :: 0 <= k < BlockLength(lines, depth) ==> CommentBalanced(lines[k])
    ensures RawLength(lines, depth) == BlockLength(lines, depth)
  {
    hide Depth, Uncommented, CommentBalanced;
    if lines != [] && depth > 0 {
      BalancedCountsAlike(lines[0]);
      var rest := depth + Depth(Uncommented(lines[0]));
      forall k | 0 <= k < BlockLength(lines[1..], rest) ensures CommentBalanced(lines[1..][k]) {
        assert lines[1..][k] == lines[k + 1];
      }
      RawEndsLikeParsed(lines[1..], rest);
    }
  }

  // ---------------------------------------------------------------- the blocks of a file

  datatype Found = Found(name: string, lines: seq<string>)

  /** The blocks that are collected from the lines. */
  function Blocks(lines: seq<string>): seq<Found>
    decreases |lines|
  {
    if lines == [] then []
    else
      match ModuleName(Uncommented(lines[0]))
      case None => Blocks(lines[1..])
      case Some(name) =>
        var n := RawLength(lines[1..], 1);
        [Found(name, lines[1..1 + n])] + Blocks(lines[1 + n..])
  }

  function Mappings(found: seq<Found>, acc: map<string, map<string, Value>>): map<string, map<string, Value>> {
    if found == [] then acc
    else Mappings(found[1..], acc[found[0].name := Assignments(found[0].lines, map[]).mapping])
  }

  /** What comes back depends on nothing but the blocks that are collected. */
  lemma {:induction false} ModulesOfBlocks(lines: seq<string>, acc: map<string, map<string, Value>>)
    ensures Modules(lines, acc) == Mappings(Blocks(lines), acc)
    decreases |lines|
  {
    hide Assignments, ModuleName, Uncommented, RawLength;
    if lines != [] {
      match ModuleName(Uncommented(lines[0]))
      case None => ModulesOfBlocks(lines[1..], acc);
      case Some(name) =>
        var n := RawLength(lines[1..], 1);
        var found := Found(name, lines[1..1 + n]);
        assert ([found] + Blocks(lines[1 + n..]))[1..] == Blocks(lines[1 + n..]);
        ModulesOfBlocks(lines[1 + n..], acc[name := Assignments(found.lines, map[]).mapping]);
    }
  }

  /** A file: lines that open no module, and module blocks laid out one assignment per line. */
  datatype Part =
    | Other(raw: string)
    | Module(opening: string, name: string, body: seq<Item>, closing: string)

  function BlockOf(part: Part): seq<string>
    requires part.Module?
  {
    Lines(part.body) + [part.closing]
  }

  function FileLines(parts: seq<Part>): seq<string> {
    if parts == [] then []
    else if parts[0].Other? then [parts[0].raw] + FileLines(parts[1..])
    else [parts[0].opening] + (BlockOf(parts[0]) + FileLines(parts[1..]))
  }

  /** The blocks that are in the file. */
  function Laid(parts: seq<Part>): seq<Found> {
    if parts == [] then []
    else if parts[0].Other? then Laid(parts[1..])
    else [Found(parts[0].name, BlockOf(parts[0]))] + Laid(parts[1..])
  }

  predicate Opened(parts: seq<Part>) {
    forall i :: 0 <= i < |parts| ==>
      match parts[i]
      case Other(raw) => ModuleName(Uncommented(raw)).None?
      case Module(opening, name, _, _) => ModuleName(Uncommented(opening)) == Some(name)
  }

  /** Every block ends itself before the rest of the file. */
  ghost predicate AllEndThemselves(parts: seq<Part>) {
    parts == [] ||
    ((parts[0].Module? ==> EndsItself(BlockOf(parts[0]), FileLines(parts[1..]))) && AllEndThemselves(parts[1..]))
  }

  lemma OtherFound(raw: string, more: seq<string>)
    requires ModuleName(Uncommented(raw)).None?
    ensures Blocks([raw] + more) == Blocks(more)
  {
    assert ([raw] + more)[1..] == more;
  }

  lemma BlockFound(opening: string, name: string, rest: seq<string>)
    requires ModuleName(Uncommented(opening)) == Some(name)
    ensures var n := RawLength(rest, 1); Blocks([opening] + rest) == [Found(name, rest[..n])] + Blocks(rest[n..])
  {
    hide RawLength, ModuleName, Uncommented;
    assert ([opening] + rest)[1..] == rest;
    var n := RawLength(rest, 1);
    assert ([opening] + rest)[1..1 + n] == rest[..n] && ([opening] + rest)[1 + n..] == rest[n..];
  }

  /** The blocks collected from a file are those that are in it, exactly when every block ends itself. */
  lemma {:induction false} BlocksFoundExactlyWhen(parts: seq<Part>)
    requires Opened(parts)
    ensures Blocks(FileLines(parts)) == Laid(parts) <==> AllEndThemselves(parts)
  {
    hide Blocks, ModuleName, Uncommented, RawLength, EndsItself, BlockOf;
    if parts == [] {
      NoBlocks();
    } else {
      var more := FileLines(parts[1..]);
      BlocksFoundExactlyWhen(parts[1..]);
      match parts[0]
      case Other(raw) => OtherFound(raw, more);
      case Module(opening, name, _, _) =>
        var block := BlockOf(parts[0]);
        var rest := block + more;
        var n := RawLength(rest, 1);
        BlockFound(opening, name, rest);
        CollectedExactlyWhen(block, more);
        var found, laid := [Found(name, rest[..n])] + Blocks(rest[n..]), [Found(name, block)] + Laid(parts[1..]);
        if n == |block| {
          assert rest[..n] == block && rest[n..] == more;
          assert found[1..] == Blocks(more) && laid[1..] == Laid(parts[1..]);
        } else {
          assert found[0] != laid[0];
        }
    }
  }

  lemma NoBlocks()
    ensures Blocks([]) == []
  {
  }

  // ---------------------------------------------------------------- what comes back

  function Contents(parts: seq<Part>, acc: map<string, map<string, Value>>): map<string, map<string, Value>> {
    if parts == [] then acc
    else
      match parts[0]
      case Other(_) => Contents(parts[1..], acc)
      case Module(_, name, body, _) => Contents(parts[1..], acc[name := Meaning(body, map[])])
  }

  predicate Closes(body: seq<Item>, closing: string) {
    WellLaid(body) && NoBreaks(closing) && Clean(closing) == "}"
  }

  ghost predicate WellFormed(parts: seq<Part>) {
    Opened(parts) && forall i :: 0 <= i < |parts| && parts[i].Module? ==> Closes(parts[i].body, parts[i].closing)
  }

  /** A block in which every comment is balanced ends itself, whatever is behind it. */
  lemma BalancedCommentsEnd(part: Part, behind: seq<string>)
    requires part.Module? && Closes(part.body, part.closing)
    requires forall line :: line in BlockOf(part) ==> CommentBalanced(line)
    ensures EndsItself(BlockOf(part), behind)
  {
    hide Depth, Uncommented, CommentBalanced, WellLaid, Lines, Clean, NoBreaks, BlockLength, RawLength, EndsItself;
    var body, closing, lines := part.body, part.closing, BlockOf(part);
    var all := lines + behind;
    assert all == Lines(body) + ([closing] + behind);
    LayoutKeepsDepth(body, 1, [closing] + behind);
    OneBlockLine(closing, behind, 1);
    EmptyDepth();
    BlockStops(behind, 0);
    forall k | 0 <= k < |lines| ensures CommentBalanced(all[k]) { assert all[k] == lines[k] && lines[k] in lines; }
    RawEndsLikeParsed(all, 1);
    CollectedExactlyWhen(lines, behind);
  }

  /** The parser stops at the closing line, whatever is collected behind it. */
  lemma BlockMeans(body: seq<Item>, closing: string, behind: seq<string>)
    requires Closes(body, closing)
    ensures Assignments((Lines(body) + [closing]) + behind, map[]).mapping == Meaning(body, map[])
  {
    hide WellLaid, Lines, Clean, NoBreaks, Assignments, Meaning, KeyValue;
    assert (Lines(body) + [closing]) + behind == Lines(body) + ([closing] + behind);
    LayoutIsRecovered(body, map[], [closing] + behind);
    NextLine([closing] + behind, Meaning(body, map[]));
  }

  lemma {:induction false} LaidMeans(parts: seq<Part>, acc: map<string, map<string, Value>>)
    requires WellFormed(parts)
    ensures Mappings(Laid(parts), acc) == Contents(parts, acc)
    decreases |parts|
  {
    hide Meaning, Assignments, Closes, Opened, Lines;
    if parts != [] {
      assert Opened(parts[1..]) by { OpenedRest(parts); }
      match parts[0]
      case Other(_) => LaidMeans(parts[1..], acc);
      case Module(_, name, body, closing) =>
        var block := Lines(body) + [closing];
        BlockMeans(body, closing, []);
        assert block + [] == block;
        assert ([Found(name, block)] + Laid(parts[1..]))[1..] == Laid(parts[1..]);
        LaidMeans(parts[1..], acc[name := Meaning(body, map[])]);
    }
  }

  lemma OpenedRest(parts: seq<Part>)
    requires parts != [] && Opened(parts)
    ensures Opened(parts[1..])
  {
  }

  /** parse_modules recovers every module of a file in which every block ends itself. */
  lemma ModulesAreRecovered(parts: seq<Part>, acc: map<string, map<string, Value>>)
    requires WellFormed(parts) && AllEndThemselves(parts)
    ensures Modules(FileLines(parts), acc) == Contents(parts, acc)
  {
    hide Modules, FileLines, Blocks, Laid, AllEndThemselves, Contents, Mappings, Closes, Opened;
    BlocksFoundExactlyWhen(parts);
    ModulesOfBlocks(FileLines(parts), acc);
    LaidMeans(parts, acc);
  }

  // ---------------------------------------------------------------- what is lost otherwise

  lemma ModuleFollows(opening: string, name: string, lines: seq<string>, acc: map<string, map<string, Value>>)
    requires ModuleName(Uncommented(opening)) == Some(name)
    ensures var n := RawLength(lines, 1);
      Modules([opening] + lines, acc) == Modules(lines[n..], acc[name := Assignments(lines[..n], map[]).mapping])
  {
    hide Assignments, RawLength, ModuleName, Uncommented;
    var all, n := [opening] + lines, RawLength(lines, 1);
    assert all[1..] == lines && all[1..1 + n] == lines[..n] && all[1 + n..] == lines[n..];
  }

  predicate Opens(lines: seq<string>, name: string) {
    exists line :: line in lines && ModuleName(Uncommented(line)) == Some(name)
  }

  /** Lines that open no module of this name leave it as it is. */
  lemma {:induction false} UnopenedStays(lines: seq<string>, acc: map<string, map<string, Value>>, name: string)
    requires !Opens(lines, name)
    ensures var m := Modules(lines, acc); (name in m <==> name in acc) && (name in m ==> m[name] == acc[name])
    decreases |lines|
  {
    hide Assignments, ModuleName, Uncommented, RawLength;
    if lines != [] {
      assert lines[0] in lines;
      match ModuleName(Uncommented(lines[0]))
      case None => UnopenedStays(lines[1..], acc, name);
      case Some(other) =>
        var n := RawLength(lines[1..], 1);
        UnopenedStays(lines[1 + n..], acc[other := Assignments(lines[1..1 + n], map[]).mapping], name);
    }
  }

  predicate Assigns(items: seq<Item>, key: string) {
    exists i :: 0 <= i < |items| && !items[i].Gap? && items[i].key == key
  }

  lemma {:induction false} MeaningKeys(items: seq<Item>, acc: map<string, Value>, key: string)
    ensures key in Meaning(items, acc) <==> key in acc || Assigns(items, key)
    decreases |items|
  {
    if items != [] {
      var next := match items[0]
        case Gap(_) => acc
        case Assign(_, k, val) => acc[k := Scalar(ToYamlScalar(val))]
        case Block(_, k, body, _) => acc[k := Object(Meaning(body, map[]))];
      MeaningKeys(items[1..], next, key);
      assert Assigns(items, key) <==> (!items[0].Gap? && items[0].key == key) || Assigns(items[1..], key) by {
        if Assigns(items[1..], key) {
          var i :| 0 <= i < |items[1..]| && !items[1..][i].Gap? && items[1..][i].key == key;
          assert items[i + 1] == items[1..][i];
        }
        if Assigns(items, key) {
          var i :| 0 <= i < |items| && !items[i].Gap? && items[i].key == key;
          assert i > 0 ==> items[1..][i - 1] == items[i];
        }
      }
    }
  }

  /** The module gets what is read from the lines that are collected, unless it is opened again. */
  lemma CollectedMeans(opening: string, name: string, block: seq<string>, behind: seq<string>,
                       acc: map<string, map<string, Value>>)
    requires ModuleName(Uncommented(opening)) == Some(name) && EndsItself(block, behind) && !Opens(behind, name)
    ensures var m := Modules([opening] + (block + behind), acc);
      && name in m && m[name] == Assignments(block, map[]).mapping
      && forall other :: other != name && !Opens(behind, other) ==> (other in m <==> other in acc)
  {
    hide Modules, Assignments, RawLength, ModuleName, Uncommented, EndsItself, Opens;
    var lines := block + behind;
    CollectedExactlyWhen(block, behind);
    ModuleFollows(opening, name, lines, acc);
    assert lines[..|block|] == block && lines[|block|..] == behind;
    var next := acc[name := Assignments(block, map[]).mapping];
    UnopenedStays(behind, next, name);
    forall other | other != name && !Opens(behind, other)
      ensures other in Modules(behind, next) <==> other in acc
    {
      UnopenedStays(behind, next, other);
    }
  }

  /** A block whose raw braces are balanced too early loses every assignment behind that line. */
  lemma CutOffIsLost(opening: string, name: string, before: seq<Item>, behind: seq<string>,
                     acc: map<string, map<string, Value>>)
    requires ModuleName(Uncommented(opening)) == Some(name) && WellLaid(before)
    requires EndsItself(Lines(before), behind) && !Opens(behind, name)
    ensures var m := Modules([opening] + (Lines(before) + behind), acc);
      name in m && m[name] == Meaning(before, map[]) && forall key :: key in m[name] <==> Assigns(before, key)
  {
    hide Modules, Assignments, ModuleName, Uncommented, WellLaid, EndsItself, Lines, Meaning, Opens, Assigns;
    CollectedMeans(opening, name, Lines(before), behind, acc);
    LayoutIsRecovered(before, map[], []);
    assert Lines(before) + [] == Lines(before);
    NoMoreLines(Meaning(before, map[]));
    forall key ensures key in Meaning(before, map[]) <==> Assigns(before, key) { MeaningKeys(before, map[], key); }
  }

  lemma {:induction false} PrefixOfBlock(lines: seq<string>, depth: int, k: nat)
    requires k <= BlockLength(lines, depth)
    ensures BlockLength(lines[..k], depth) == k
  {
    hide Depth, Uncommented;
    if k > 0 {
      assert lines[..k][1..] == lines[1..][..k - 1];
      PrefixOfBlock(lines[1..], depth + Depth(Uncommented(lines[0])), k - 1);
    }
  }

  /** The first k lines of a nested block are read to their end, as some value of its key. */
  lemma CutInside(inner: Item, k: nat, acc: map<string, Value>) returns (value: Value)
    requires inner.Block? && WellLaid([inner]) && k <= |Lines(inner.body)|
    ensures Assignments([inner.opening] + Lines(inner.body)[..k], acc).mapping == acc[inner.key := value]
  {
    hide Assignments, Lines, Clean, KeyValue, NoBreaks, Depth, ObjectOf, BlockText, BlockLength;
    var body := Lines(inner.body);
    var lines := [inner.opening] + body[..k];
    EmptyDepth();
    NoBraceNoKey();
    LayoutKeepsDepth(inner.body, 1, []);
    assert body + [] == body;
    PrefixOfBlock(body, 1, k);
    NextLine(lines, acc);
    assert lines[1..] == body[..k] && lines[1 + k..] == [];
    value := Object(ObjectOf(BlockText("{", lines[1..], k)));
    NoMoreLines(acc[inner.key := value]);
  }

  /** The same when the cut is inside a nested block, which comes back with whatever was read of it. */
  lemma CutInsideIsLost(opening: string, name: string, before: seq<Item>, inner: Item, k: nat, behind: seq<string>,
                        acc: map<string, map<string, Value>>)
    requires ModuleName(Uncommented(opening)) == Some(name) && WellLaid(before)
    requires inner.Block? && WellLaid([inner]) && k <= |Lines(inner.body)|
    requires EndsItself(Lines(before) + ([inner.opening] + Lines(inner.body)[..k]), behind) && !Opens(behind, name)
    ensures var block := Lines(before) + ([inner.opening] + Lines(inner.body)[..k]);
      var m := Modules([opening] + (block + behind), acc);
      && name in m && inner.key in m[name]
      && m[name] == Meaning(before, map[])[inner.key := m[name][inner.key]]
      && forall key :: key in m[name] <==> Assigns(before, key) || key == inner.key
  {
    hide Modules, Assignments, ModuleName, Uncommented, WellLaid, EndsItself, Lines, Meaning, Opens, Assigns;
    var rest := [inner.opening] + Lines(inner.body)[..k];
    CollectedMeans(opening, name, Lines(before) + rest, behind, acc);
    LayoutIsRecovered(before, map[], rest);
    var value := CutInside(inner, k, Meaning(before, map[]));
    forall key ensures key in Meaning(before, map[]) <==> Assigns(before, key) { MeaningKeys(before, map[], key); }
  }

  /** A block whose raw braces are balanced too late swallows the lines up to there, and every module in them. */
  lemma SwallowedIsLost(opening: string, name: string, body: seq<Item>, closing: string, swallowed: seq<string>,
                        behind: seq<string>, acc: map<string, map<string, Value>>)
    requires ModuleName(Uncommented(opening)) == Some(name) && Closes(body, closing)
    requires EndsItself((Lines(body) + [closing]) + swallowed, behind) && !Opens(behind, name)
    ensures var m := Modules([opening] + (((Lines(body) + [closing]) + swallowed) + behind), acc);
      && name in m && m[name] == Meaning(body, map[])
      && forall other :: other != name && !Opens(behind, other) ==> (other in m <==> other in acc)
  {
    hide Modules, Assignments, ModuleName, Uncommented, Closes, EndsItself, Lines, Meaning, Opens;
    CollectedMeans(opening, name, (Lines(body) + [closing]) + swallowed, behind, acc);
    BlockMeans(body, closing, swallowed);
  }
}
