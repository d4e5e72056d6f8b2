/** What the parser recovers from a mapping laid out one assignment per line. */
module TfRoundTrip {
  import opened PyText
  import opened Text
  import opened TfScanners
  import opened TfParser

  // ---------------------------------------------------------------- where a block ends

  function DepthSum(lines: seq<string>): int {
    if lines == [] then 0 else Depth(Uncommented(lines[0])) + DepthSum(lines[1..])
  }

  /** A block stops at exactly the first line after which the braces are balanced. */
  lemma {:induction false} BlockStopsAtBalance(lines: seq<string>, depth: int)
    ensures var n := BlockLength(lines, depth);
      && (forall k :: 0 <= k < n ==> depth + DepthSum(lines[..k]) > 0)
      && (n == |lines| || depth + DepthSum(lines[..n]) <= 0)
  {
    hide Uncommented, Depth;
    if lines != [] && depth > 0 {
      var d := Depth(Uncommented(lines[0]));
      BlockStopsAtBalance(lines[1..], depth + d);
      var n := BlockLength(lines, depth);
      forall k | 0 < k <= n ensures DepthSum(lines[..k]) == d + DepthSum(lines[1..][..k - 1]) {
        assert lines[..k][1..] == lines[1..][..k - 1];
      }
    }
  }

  // ---------------------------------------------------------------- comments are stripped once or twice

  lemma CleanTwice(raw: string)
    ensures Clean(Uncommented(raw)) == Clean(raw)
  {
    hide Uncommented, Strip;
    UncommentedTwice(raw);
  }

  lemma {:induction false} UncommentedAllTwice(lines: seq<string>)
    ensures UncommentedAll(UncommentedAll(lines)) == UncommentedAll(lines)
  {
    hide Uncommented;
    if lines != [] {
      UncommentedTwice(lines[0]);
      UncommentedAllTwice(lines[1..]);
    }
  }

  lemma {:induction false} UncommentedAllConcat(a: seq<string>, b: seq<string>)
    ensures UncommentedAll(a + b) == UncommentedAll(a) + UncommentedAll(b)
  {
    hide Uncommented;
    if a == [] {
      assert a + b == b;
    } else {
      assert (a + b)[1..] == a[1..] + b;
      UncommentedAllConcat(a[1..], b);
    }
  }

  lemma UncommentedAllTake(lines: seq<string>, n: nat)
    requires n <= |lines|
    ensures UncommentedAll(lines)[..n] == UncommentedAll(lines[..n])
    ensures UncommentedAll(lines)[n..] == UncommentedAll(lines[n..])
  {
    hide Uncommented;
    assert lines == lines[..n] + lines[n..];
    UncommentedAllConcat(lines[..n], lines[n..]);
  }

  lemma {:induction false} BlockLengthUncommented(lines: seq<string>, depth: int)
    ensures BlockLength(UncommentedAll(lines), depth) == BlockLength(lines, depth)
  {
    hide Uncommented, Depth;
    if lines != [] && depth > 0 {
      UncommentedTwice(lines[0]);
      BlockLengthUncommented(lines[1..], depth + Depth(Uncommented(lines[0])));
    }
  }

  lemma BlockTextUncommented(val: string, lines: seq<string>, n: nat)
    requires n <= |lines|
    ensures BlockText(val, UncommentedAll(lines), n) == BlockText(val, lines, n)
  {
    hide Uncommented, Join;
    UncommentedAllTake(lines, n);
    UncommentedAllTwice(lines[..n]);
  }

  /** Removing the comments of all lines beforehand changes nothing that is parsed. */
  lemma {:induction false} CommentsDoNotMatter(lines: seq<string>, acc: map<string, Value>)
    ensures Assignments(UncommentedAll(lines), acc) == Assignments(lines, acc)
    decreases |lines|
  {
    hide Clean, KeyValue, ObjectOf, BlockText, BlockLength, ToYamlScalar, Uncommented, Assignments, Depth, OpensBlock,
      StartsWith;
    if lines != [] {
      var bare := UncommentedAll(lines);
      UncommentedAllTake(lines, 1);
      FirstUncommented(lines);
      CleanTwice(lines[0]);
      NextLine(lines, acc);
      NextLine(bare, acc);
      var kv := KeyValue(Clean(lines[0]));
      if Clean(lines[0]) != "}" {
        if kv.None? {
          CommentsDoNotMatter(lines[1..], acc);
        } else {
          var (key, val) := kv.value;
          var n := BlockLength(lines[1..], Depth(val));
          BlockLengthUncommented(lines[1..], Depth(val));
          BlockTextUncommented(val, lines[1..], n);
          UncommentedAllTake(lines, 1 + n);
          CommentsDoNotMatter(lines[1 + n..], acc[key := Object(ObjectOf(BlockText(val, lines[1..], n)))]);
          CommentsDoNotMatter(lines[1..], acc[key := Object(ObjectOf(val))]);
          CommentsDoNotMatter(lines[1..], acc[key := Scalar(ToYamlScalar(val))]);
        }
      }
    } else {
      NothingUncommented();
    }
  }

  lemma FirstUncommented(lines: seq<string>)
    requires lines != []
    ensures UncommentedAll(lines) != [] && UncommentedAll(lines)[0] == Uncommented(lines[0])
  {
  }

  lemma NothingUncommented()
    ensures UncommentedAll([]) == []
  {
  }

  // ---------------------------------------------------------------- a layout and its meaning

  /** The lines of a mapping: blank or comment lines, assignments, and blocks of such lines. */
  datatype Item =
    | Gap(raw: string)
    | Assign(raw: string, key: string, val: string)
    | Block(opening: string, key: string, body: seq<Item>, closing: string)

  function Lines(items: seq<Item>): seq<string> {
    if items == [] then []
    else
      (match items[0]
       case Gap(raw) => [raw]
       case Assign(raw, _, _) => [raw]
       case Block(opening, _, body, closing) => [opening] + Lines(body) + [closing]) + Lines(items[1..])
  }

  function Meaning(items: seq<Item>, acc: map<string, Value>): map<string, Value> {
    if items == [] then acc
    else
      match items[0]
      case Gap(_) => Meaning(items[1..], acc)
      case Assign(_, key, val) => Meaning(items[1..], acc[key := Scalar(ToYamlScalar(val))])
      case Block(_, key, body, _) => Meaning(items[1..], acc[key := Object(Meaning(body, map[]))])
  }

  predicate NoBreaks(s: string) {
    forall c :: c in s ==> !IsBreak(c)
  }

  /** Up to white space and comments, each line is what its item says; scalars have balanced braces. */
  predicate WellLaid(items: seq<Item>) {
    items == [] ||
    ((match items[0]
      case Gap(raw) => NoBreaks(raw) && Clean(raw) == ""
      case Assign(raw, key, val) =>
        NoBreaks(raw) && KeyValue(Clean(raw)) == Some((key, val)) && !StartsWith(val, '{') && Depth(val) == 0
      case Block(opening, key, body, closing) =>
        && NoBreaks(opening) && KeyValue(Clean(opening)) == Some((key, "{"))
        && NoBreaks(closing) && Clean(closing) == "}" && WellLaid(body)) && WellLaid(items[1..]))
  }

  lemma DepthOfLStrip(s: string)
    ensures Depth(LStrip(s)) == Depth(s)
  {
  }

  lemma DepthOfRStrip(s: string)
    ensures Depth(RStrip(s)) == Depth(s)
  {
    hide PyText.IsSpace, AllSpace, Count, Scan, RStrip;
    RStripFacts(s);
    NotSpaces();
    var t := RStrip(s);
    var trail := s[|t|..];
    assert s == t + trail;
    forall c | c in "{}" ensures Count(START, s, c) == Count(START, t, c) {
      CountConcat(START, t, trail, c);
      SpaceHasNo(Scan(START, t), trail, c);
    }
    assert '{' in "{}" && '}' in "{}";
  }

  lemma DepthOfClean(raw: string)
    ensures Depth(Clean(raw)) == Depth(Uncommented(raw))
  {
    hide LStrip, RStrip, Depth, Uncommented;
    DepthOfLStrip(Uncommented(raw));
    DepthOfRStrip(LStrip(Uncommented(raw)));
  }

  /** No quote, backslash or brace, and nothing that could start a comment. */
  predicate Harmless(c: char) {
    c !in "\"'\\{}#/"
  }

  predicate AllHarmless(s: string) {
    forall c :: c in s ==> Harmless(c)
  }

  lemma {:induction false} HarmlessText(s: string, t: string, c: char)
    requires c in "{}" && AllHarmless(s)
    ensures Count(START, s + t, c) == Count(START, t, c)
    ensures CommentAt(START, s + t) == |s| + CommentAt(START, t)
  {
    if s == "" {
      assert s + t == t;
    } else {
      assert s[0] in s && (s + t)[1..] == s[1..] + t && (s + t)[0] == s[0];
      HarmlessText(s[1..], t, c);
    }
  }

  lemma {:induction false} WordsAreHarmless(s: string)
    ensures AllHarmless(s[..WordEnd(s)])
  {
    if s != "" && IsWord(s[0]) {
      WordsAreHarmless(s[1..]);
      assert s[..WordEnd(s)] == [s[0]] + s[1..][..WordEnd(s[1..])];
    }
  }

  lemma DropHarmless(s: string, n: nat)
    requires n <= |s| && AllHarmless(s[..n])
    ensures Depth(s) == Depth(s[n..])
  {
    hide AllHarmless, Count, CommentAt;
    assert s == s[..n] + s[n..];
    HarmlessText(s[..n], s[n..], "{}"[0]);
    HarmlessText(s[..n], s[n..], "{}"[1]);
  }

  /** The depth of an assignment is that of its value. */
  lemma DepthOfValue(line: string)
    requires KeyValue(line).Some?
    ensures Depth(line) == Depth(KeyValue(line).value.1)
  {
    hide AllHarmless, Depth, LStrip, RStrip, WordEnd;
    var n := WordEnd(line);
    WordsAreHarmless(line);
    DropHarmless(line, n);
    DepthOfLStrip(line[n..]);
    var rest := LStrip(line[n..]);
    EqualsIsHarmless();
    assert rest[..1] == "=";
    DropHarmless(rest, 1);
    DepthOfLStrip(rest[1..]);
    DepthOfRStrip(LStrip(rest[1..]));
  }

  lemma EqualsIsHarmless()
    ensures AllHarmless("=")
  {
  }

  lemma EmptyDepth()
    ensures Depth("") == 0 && Depth("}") == -1 && Depth("{") == 1
  {
  }

  lemma LinesStep(items: seq<Item>)
    requires items != []
    ensures match items[0]
      case Gap(raw) => Lines(items) == [raw] + Lines(items[1..])
      case Assign(raw, _, _) => Lines(items) == [raw] + Lines(items[1..])
      case Block(opening, _, body, closing) =>
        Lines(items) == [opening] + (Lines(body) + ([closing] + Lines(items[1..])))
  {
  }

  lemma OneBlockLine(line: string, lines: seq<string>, depth: int)
    requires depth > 0
    ensures BlockLength([line] + lines, depth) == 1 + BlockLength(lines, depth + Depth(Clean(line)))
  {
    hide Depth, Clean, Uncommented;
    DepthOfClean(line);
    assert ([line] + lines)[1..] == lines;
  }

  /** The lines of a layout leave the depth as it was, and above zero all the way. */
  lemma {:induction false} LayoutKeepsDepth(items: seq<Item>, depth: int, rest: seq<string>)
    requires WellLaid(items) && depth > 0
    ensures BlockLength(Lines(items) + rest, depth) == |Lines(items)| + BlockLength(rest, depth)
    decreases items
  {
    hide Clean, Uncommented, Depth, KeyValue, NoBreaks, BlockLength, Lines;
    if items == [] {
      NoItems();
      assert Lines(items) + rest == rest;
    } else {
      EmptyDepth();
      LinesStep(items);
      var more := Lines(items[1..]) + rest;
      LayoutKeepsDepth(items[1..], depth, rest);
      match items[0]
      case Gap(raw) =>
        OneBlockLine(raw, more, depth);
        assert Lines(items) + rest == [raw] + more;
      case Assign(raw, _, _) =>
        DepthOfValue(Clean(raw));
        OneBlockLine(raw, more, depth);
        assert Lines(items) + rest == [raw] + more;
      case Block(opening, _, body, closing) =>
        var inside := [closing] + more;
        DepthOfValue(Clean(opening));
        OneBlockLine(opening, Lines(body) + inside, depth);
        LayoutKeepsDepth(body, depth + 1, inside);
        OneBlockLine(closing, more, depth + 1);
        assert Lines(items) + rest == [opening] + (Lines(body) + inside);
    }
  }

  lemma NoItems()
    ensures Lines([]) == [] && forall acc :: Meaning([], acc) == acc
  {
  }

  lemma {:induction false} LayoutHasNoBreaks(items: seq<Item>)
    requires WellLaid(items)
    ensures forall i :: 0 <= i < |Lines(items)| ==> NoBreaks(Lines(items)[i])
    decreases items
  {
    hide Clean, KeyValue, Depth, NoBreaks;
    if items != [] {
      LayoutHasNoBreaks(items[1..]);
      match items[0]
      case Gap(_) =>
      case Assign(_, _, _) =>
      case Block(opening, _, body, closing) => LayoutHasNoBreaks(body);
    }
  }

  // ---------------------------------------------------------------- splitting what was joined

  lemma {:induction false} LineEndAt(s: string, t: string)
    requires NoBreaks(s) && (t == "" || IsBreak(t[0]))
    ensures LineEnd(s + t) == |s|
  {
    if s == "" {
      assert s + t == t;
    } else {
      assert s[0] in s;
      assert (s + t)[1..] == s[1..] + t;
      assert NoBreaks(s[1..]);
      LineEndAt(s[1..], t);
    }
  }

  ghost predicate AllNoBreaks(lines: seq<string>) {
    forall i :: 0 <= i < |lines| ==> NoBreaks(lines[i])
  }

  /** Splitting joined lines gives them back, but for an empty last one. */
  lemma {:induction false} SplitJoin(lines: seq<string>)
    requires lines != [] && AllNoBreaks(lines)
    ensures SplitLines(Join(lines)) == if lines[|lines| - 1] == "" then lines[..|lines| - 1] else lines
    decreases |lines|
  {
    hide NoBreaks, Join, SplitLines, LineEnd;
    var s := Join(lines);
    JoinStep(lines);
    if |lines| == 1 {
      LineEndAt(s, "");
      assert s + "" == s && lines == [s];
      SplitOne(s);
    } else {
      var first, rest := lines[0], Join(lines[1..]);
      LineEndAt(first, "\n" + rest);
      assert s == first + ("\n" + rest);
      SplitMore(first, rest);
      SplitJoin(lines[1..]);
    }
  }

  lemma JoinStep(lines: seq<string>)
    requires lines != []
    ensures Join(lines) == if |lines| == 1 then lines[0] else lines[0] + "\n" + Join(lines[1..])
  {
  }

  lemma SplitOne(s: string)
    requires LineEnd(s) == |s|
    ensures SplitLines(s) == if s == "" then [] else [s]
  {
  }

  lemma Around(first: string, rest: string)
    ensures var s := first + ("\n" + rest);
      && first + "\n" + rest == s && |first| < |s| && s[|first|] == '\n'
      && s[..|first|] == first && s[|first| + 1..] == rest
  {
  }

  lemma SplitMore(first: string, rest: string)
    requires LineEnd(first + ("\n" + rest)) == |first|
    ensures SplitLines(first + "\n" + rest) == [first] + SplitLines(rest)
  {
    hide LineEnd, IsBreak, SplitLines;
    Around(first, rest);
    SplitAtNewline(first + ("\n" + rest));
  }

  lemma SplitAtNewline(s: string)
    requires LineEnd(s) < |s| && s[LineEnd(s)] == '\n'
    ensures SplitLines(s) == [s[..LineEnd(s)]] + SplitLines(s[LineEnd(s) + 1..])
  {
    hide LineEnd, IsBreak;
    assert s[LineEnd(s)..][0] == '\n';
  }

  // ---------------------------------------------------------------- the text of a block

  lemma LastOfUncommented(raw: string)
    ensures var t := Uncommented(raw); t == "" || !PyText.IsSpace(t[|t| - 1])
  {
    RStripFacts(raw[..CommentAt(START, raw)]);
  }

  /** A line that is a closing brace is white space and the brace, comments aside. */
  lemma ClosingLine(raw: string) returns (lead: string)
    requires Clean(raw) == "}"
    ensures Uncommented(raw) == lead + "}" && AllSpace(lead)
  {
    hide PyText.IsSpace, AllSpace, Uncommented, LStrip;
    var s := Uncommented(raw);
    var t := LStrip(s);
    LStripFacts(s);
    LastOfUncommented(raw);
    lead := s[..|s| - |t|];
    assert s == lead + t;
    RStripFacts(t);
    RStripKeeps(t);
  }

  lemma {:induction false} JoinLast(lines: seq<string>, x: string, y: string)
    ensures Join(lines + [x + y]) == Join(lines + [x]) + y
  {
    if lines != [] {
      JoinLast(lines[1..], x, y);
      assert (lines + [x + y])[1..] == lines[1..] + [x + y] && (lines + [x])[1..] == lines[1..] + [x];
    }
  }

  lemma JoinFirst(x: string, lines: seq<string>)
    requires lines != []
    ensures Join([x] + lines) == x + Join([""] + lines)
  {
  }

  lemma BracesAreNoSpace()
    ensures !PyText.IsSpace('{') && !PyText.IsSpace('}') && AllSpace("")
  {
  }

  lemma InnerOfBraces(mid: string)
    ensures Inner("{" + mid + "}") == mid
  {
  }

  lemma InnerOfBlock(lines: seq<string>, lead: string)
    ensures Inner(Join(["{"] + (lines + [lead + "}"]))) == Join([""] + (lines + [lead]))
  {
    hide Join, Inner;
    var mid := Join([""] + (lines + [lead]));
    JoinLast(["{"] + lines, lead, "}");
    assert ["{"] + lines + [lead + "}"] == ["{"] + (lines + [lead + "}"]);
    assert ["{"] + lines + [lead] == ["{"] + (lines + [lead]);
    JoinFirst("{", lines + [lead]);
    InnerOfBraces(mid);
  }

  // ---------------------------------------------------------------- the round trip

  function Tail(lead: string): seq<string> {
    if lead == "" then [] else [lead]
  }

  lemma SuffixOfSpace(t: string, u: string)
    requires AllSpace(t) && |u| <= |t| && t == t[..|t| - |u|] + u
    ensures AllSpace(u)
  {
  }

  lemma SpaceIsBlank(s: string)
    requires AllSpace(s)
    ensures Clean(s) == ""
  {
    hide PyText.IsSpace, CommentAt;
    UncommentedIsPrefix(s);
    var t := Uncommented(s);
    assert AllSpace(t);
    LStripFacts(t);
    SuffixOfSpace(t, LStrip(t));
  }

  /** A blank line is skipped. */
  lemma BlankSkipped(s: string, lines: seq<string>, acc: map<string, Value>)
    requires Clean(s) == ""
    ensures Assignments([s] + lines, acc) == After(1, Assignments(lines, acc))
  {
  }

  lemma TailIsBlank(lead: string, acc: map<string, Value>)
    requires AllSpace(lead)
    ensures Assignments(Tail(lead), acc).mapping == acc
  {
    hide Assignments, AllSpace;
    NoMoreLines(acc);
    if lead != "" {
      SpaceIsBlank(lead);
      assert [lead] + [] == [lead];
      BlankSkipped(lead, [], acc);
    }
  }

  lemma SplitBlock(lines: seq<string>, lead: string)
    requires AllNoBreaks(lines) && NoBreaks(lead)
    ensures SplitLines(Join([""] + (lines + [lead]))) == [""] + (lines + Tail(lead))
  {
    hide NoBreaks, Join, SplitLines;
    EmptyHasNoBreaks();
    var all := [""] + (lines + [lead]);
    SplitJoin(all);
    assert all[..|all| - 1] == [""] + lines && lines + [] == lines;
  }

  lemma EmptyHasNoBreaks()
    ensures NoBreaks("")
  {
  }

  lemma {:induction false} UncommentedHaveNoBreaks(lines: seq<string>)
    requires AllNoBreaks(lines)
    ensures AllNoBreaks(UncommentedAll(lines))
  {
    hide Uncommented, NoBreaks;
    if lines != [] {
      assert AllNoBreaks(lines[1..]);
      UncommentedHaveNoBreaks(lines[1..]);
      PrefixHasNoBreaks(lines[0], Uncommented(lines[0]));
    }
  }

  lemma PrefixHasNoBreaks(raw: string, t: string)
    requires NoBreaks(raw) && t == Uncommented(raw)
    ensures NoBreaks(t)
  {
    hide Uncommented, IsBreak;
    UncommentedIsPrefix(raw);
    forall c | c in t ensures c in raw {}
  }

  /** Uncommented lines parse as the lines do, in front of the same rest. */
  lemma UncommentedBody(lines: seq<string>, rest: seq<string>, acc: map<string, Value>)
    ensures Assignments(UncommentedAll(lines) + rest, acc) == Assignments(lines + rest, acc)
  {
    hide Assignments;
    CommentsDoNotMatter(UncommentedAll(lines) + rest, acc);
    CommentsDoNotMatter(lines + rest, acc);
    UncommentedAllConcat(UncommentedAll(lines), rest);
    UncommentedAllConcat(lines, rest);
    UncommentedAllTwice(lines);
  }

  ghost predicate BodyParses(body: seq<Item>) {
    forall rest :: Assignments(Lines(body) + rest, map[]) ==
      After(|Lines(body)|, Assignments(rest, Meaning(body, map[])))
  }

  /** The object that the text of a laid-out block parses to, if its lines parse to what they mean. */
  lemma BlockParses(body: seq<Item>, closing: string, lines: seq<string>)
    requires lines == Lines(body) + [closing] && WellLaid(body) && NoBreaks(closing) && Clean(closing) == "}"
    requires BodyParses(body)
    ensures ObjectOf(Join(["{"] + UncommentedAll(lines))) == Meaning(body, map[])
  {
    hide Assignments, Meaning, Lines, WellLaid, Clean, Uncommented, NoBreaks, Join, Inner, AllSpace;
    var u := UncommentedAll(Lines(body));
    var lead := ClosingLine(closing);
    UncommentedAllConcat(Lines(body), [closing]);
    OneUncommented(closing);
    InnerOfBlock(u, lead);
    LayoutHasNoBreaks(body);
    UncommentedHaveNoBreaks(Lines(body));
    LeadHasNoBreaks(closing, lead);
    SplitBlock(u, lead);
    SpaceIsBlankEmpty();
    BlankSkipped("", u + Tail(lead), map[]);
    UncommentedBody(Lines(body), Tail(lead), map[]);
    TailIsBlank(lead, Meaning(body, map[]));
  }

  lemma OneUncommented(line: string)
    ensures UncommentedAll([line]) == [Uncommented(line)]
  {
  }

  lemma LeadHasNoBreaks(closing: string, lead: string)
    requires NoBreaks(closing) && Uncommented(closing) == lead + "}"
    ensures NoBreaks(lead)
  {
    hide Uncommented, IsBreak;
    PrefixHasNoBreaks(closing, Uncommented(closing));
    forall c | c in lead ensures c in lead + "}" {}
  }

  lemma SpaceIsBlankEmpty()
    ensures Clean("") == ""
  {
  }

  /** Every layout parses to what it means, and the parser goes on with what follows it. */
  lemma {:induction false} LayoutIsRecovered(items: seq<Item>, acc: map<string, Value>, rest: seq<string>)
    requires WellLaid(items)
    ensures Assignments(Lines(items) + rest, acc) == After(|Lines(items)|, Assignments(rest, Meaning(items, acc)))
    decreases items
  {
    hide Assignments, Lines, Clean, KeyValue, NoBreaks, Depth, ToYamlScalar, ObjectOf, BlockText, BlockLength;
    if items == [] {
      NoItems();
      assert Lines(items) + rest == rest;
    } else {
      LinesStep(items);
      var more := Lines(items[1..]) + rest;
      match items[0]
      case Gap(raw) =>
        assert Lines(items) + rest == [raw] + more;
        BlankSkipped(raw, more, acc);
        LayoutIsRecovered(items[1..], acc, rest);
      case Assign(raw, key, val) =>
        assert Lines(items) + rest == [raw] + more && ([raw] + more)[1..] == more;
        NoBraceNoKey();
        NextLine([raw] + more, acc);
        LayoutIsRecovered(items[1..], acc[key := Scalar(ToYamlScalar(val))], rest);
      case Block(opening, key, body, closing) =>
        var obj := Meaning(body, map[]);
        forall r ensures Assignments(Lines(body) + r, map[]) == After(|Lines(body)|, Assignments(r, obj)) {
          LayoutIsRecovered(body, map[], r);
        }
        BlockFollows(opening, key, body, closing, more, acc);
        assert Lines(items) + rest == [opening] + (Lines(body) + ([closing] + more));
        LayoutIsRecovered(items[1..], acc[key := Object(obj)], rest);
    }
  }

  lemma NoBraceNoKey()
    ensures KeyValue("}").None?
  {
  }

  lemma BlockFollows(opening: string, key: string, body: seq<Item>, closing: string, more: seq<string>,
                     acc: map<string, Value>)
    requires WellLaid(body) && KeyValue(Clean(opening)) == Some((key, "{"))
    requires NoBreaks(closing) && Clean(closing) == "}"
    requires BodyParses(body)
    ensures Assignments([opening] + (Lines(body) + ([closing] + more)), acc) ==
      After(|Lines(body)| + 2, Assignments(more, acc[key := Object(Meaning(body, map[]))]))
  {
    hide Assignments, Lines, Clean, KeyValue, NoBreaks, Depth, ObjectOf, BlockLength, WellLaid, Meaning, Join,
      UncommentedAll;
    var inside := Lines(body) + ([closing] + more);
    var n := |Lines(body)| + 1;
    EmptyDepth();
    NoBraceNoKey();
    LayoutKeepsDepth(body, 1, [closing] + more);
    OneBlockLine(closing, more, 1);
    BlockStops(more, 0);
    NextLine([opening] + inside, acc);
    assert ([opening] + inside)[1..] == inside;
    assert inside[..n] == Lines(body) + [closing] && ([opening] + inside)[1 + n..] == more;
    BlockParses(body, closing, inside[..n]);
  }
}
