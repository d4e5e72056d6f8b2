/** The two quote-aware line scanners of hack/scripts/tf2yaml.py. */
module TfScanners {
  import opened PyText

  // ---------------------------------------------------------------- quoting

  datatype Quote = Plain | Single | Double

  /** Where a scanner is: the quotes it is in, and whether a backslash precedes. */
  datatype State = State(quote: Quote, escaped: bool)

  const START := State(Plain, false)

  function Step(st: State, c: char): State {
    if st.escaped then State(st.quote, false)
    else if c == '\\' then State(st.quote, true)
    else if c == '"' && st.quote != Single then State(if st.quote == Plain then Double else Plain, false)
    else if c == '\'' && st.quote != Double then State(if st.quote == Plain then Single else Plain, false)
    else st
  }

  function Scan(st: State, s: string): State
    decreases |s|
  {
    if s == "" then st else Scan(Step(st, s[0]), s[1..])
  }

  predicate IsMarker(s: string) {
    "#" <= s || "//" <= s
  }

  /** Where the first comment starts outside strings, or the length. */
  function CommentAt(st: State, s: string): (n: nat)
    ensures n <= |s|
    decreases |s|
  {
    if s == "" || (st == START && IsMarker(s)) then 0 else 1 + CommentAt(Step(st, s[0]), s[1..])
  }

  /** strip_inline_comments */
  function Uncommented(line: string): string {
    RStrip(line[..CommentAt(START, line)])
  }

  /** How often c occurs outside strings. */
  function Count(st: State, s: string, c: char): nat
    decreases |s|
  {
    if s == "" then 0 else (if st == START && s[0] == c then 1 else 0) + Count(Step(st, s[0]), s[1..], c)
  }

  /** Opening minus closing braces. */
  function Depth(s: string): int {
    Count(START, s, '{') - Count(START, s, '}')
  }

  // ---------------------------------------------------------------- the loops

  function InQuotes(inSingle: bool, inDouble: bool): State
    requires !(inSingle && inDouble)
  {
    State(if inSingle then Single else if inDouble then Double else Plain, false)
  }

  method StripInlineComments(line: string) returns (out: string)
    ensures out == Uncommented(line)
  {
    hide RStrip, IsSpace, CommentAt, IsMarker;
    out := "";
    NoCharacters();
    var i := 0;
    var inSingle, inDouble := false, false;
    ghost var st := START;
    while i < |line|
      invariant i <= |line| && out == line[..i] && !(inSingle && inDouble)
      invariant CommentAt(START, line) == i + CommentAt(st, line[i..])
      invariant i < |line| ==> st == InQuotes(inSingle, inDouble)
    {
      var ch := line[i];
      assert line[i..][1..] == line[i + 1..];
      CommentAtStep(st, line[i..]);
      if ch == '\\' && i + 1 < |line| {
        assert line[i + 1..][1..] == line[i + 2..];
        CommentAtStep(Step(st, ch), line[i + 1..]);
        out := out + [ch] + [line[i + 1]];
        st := Step(Step(st, ch), line[i + 1]);
        i := i + 2;
        continue;
      }
      if !inSingle && ch == '"' {
        inDouble := !inDouble;
      } else if !inDouble && ch == '\'' {
        inSingle := !inSingle;
      } else if !inSingle && !inDouble && (ch == '#' || (ch == '/' && i + 1 < |line| && line[i + 1] == '/')) {
        break;
      }
      st := Step(st, ch);
      out := out + [ch];
      i := i + 1;
    }
    out := RStrip(out);
  }

  lemma NoCharacters()
    ensures forall st :: CommentAt(st, "") == 0
  {
  }

  lemma CommentAtStep(st: State, s: string)
    requires s != ""
    ensures CommentAt(st, s) ==
      if st == START && (s[0] == '#' || (s[0] == '/' && |s| > 1 && s[1] == '/')) then 0
      else 1 + CommentAt(Step(st, s[0]), s[1..])
  {
  }

  method CountBracesOutsideStrings(s: string) returns (opens: nat, closes: nat)
    ensures opens == Count(START, s, '{') && closes == Count(START, s, '}')
  {
    opens, closes := 0, 0;
    var inSingle, inDouble, esc := false, false, false;
    for i := 0 to |s|
      invariant !(inSingle && inDouble)
      invariant var st := State(InQuotes(inSingle, inDouble).quote, esc);
        && Count(START, s, '{') == opens + Count(st, s[i..], '{')
        && Count(START, s, '}') == closes + Count(st, s[i..], '}')
    {
      var ch := s[i];
      assert s[i..][1..] == s[i + 1..];
      if esc { esc := false; continue; }
      if ch == '\\' { esc := true; continue; }
      if !inSingle && ch == '"' && !inDouble {
        inDouble := true; continue;
      } else if inDouble && ch == '"' {
        inDouble := false; continue;
      }
      if !inDouble && ch == '\'' && !inSingle {
        inSingle := true; continue;
      } else if inSingle && ch == '\'' {
        inSingle := false; continue;
      }
      if inSingle || inDouble { continue; }
      if ch == '{' { opens := opens + 1; } else if ch == '}' { closes := closes + 1; }
    }
  }

  // ---------------------------------------------------------------- what the scanners find

  /** A comment is cut off at the first marker that stands outside strings. */
  lemma {:induction false} CommentAtIsFirst(st: State, s: string, k: nat)
    requires k < |s|
    ensures k < CommentAt(st, s) ==> !(Scan(st, s[..k]) == START && IsMarker(s[k..]))
    ensures k == CommentAt(st, s) ==> Scan(st, s[..k]) == START && IsMarker(s[k..])
    decreases k
  {
    if k == 0 {
      assert s[0..] == s && s[..0] == "";
    } else {
      CommentAtIsFirst(Step(st, s[0]), s[1..], k - 1);
      assert s[..k][1..] == s[1..][..k - 1] && s[1..][k - 1..] == s[k..];
    }
  }

  lemma {:induction false} CommentFree(st: State, s: string, t: string)
    requires t <= s && |t| <= CommentAt(st, s)
    ensures CommentAt(st, t) == |t|
    decreases |t|
  {
    if t != "" {
      CommentFree(Step(st, t[0]), s[1..], t[1..]);
    }
  }

  /** The result is a prefix of the line, and what is cut off is white space, then nothing or a comment. */
  lemma UncommentedIsPrefix(line: string)
    ensures var t, cut := Uncommented(line), CommentAt(START, line);
      && t <= line && |t| <= cut && AllSpace(line[|t|..cut])
      && (cut == |line| || (Scan(START, line[..cut]) == START && IsMarker(line[cut..])))
      && CommentAt(START, t) == |t|
  {
    hide IsSpace, RStrip, AllSpace, IsMarker;
    var cut := CommentAt(START, line);
    RStripFacts(line[..cut]);
    var t := Uncommented(line);
    assert line[..cut][|t|..] == line[|t|..cut] && t == line[..|t|];
    if cut < |line| { CommentAtIsFirst(START, line, cut); }
    CommentFree(START, line, t);
  }

  /** Stripping comments again changes nothing. */
  lemma UncommentedTwice(line: string)
    ensures Uncommented(Uncommented(line)) == Uncommented(line)
  {
    hide IsSpace, CommentAt;
    UncommentedIsPrefix(line);
    var cut := CommentAt(START, line);
    RStripFacts(line[..cut]);
    var t := Uncommented(line);
    assert t[..|t|] == t;
    RStripKeeps(t);
  }

  lemma {:induction false} CountConcat(st: State, a: string, b: string, c: char)
    ensures Count(st, a + b, c) == Count(st, a, c) + Count(Scan(st, a), b, c)
    decreases |a|
  {
    if a == "" {
      assert a + b == b;
    } else {
      assert (a + b)[1..] == a[1..] + b;
      CountConcat(Step(st, a[0]), a[1..], b, c);
    }
  }

  lemma {:induction false} SpaceHasNo(st: State, s: string, c: char)
    requires AllSpace(s) && !IsSpace(c)
    ensures Count(st, s, c) == 0
    decreases |s|
  {
    hide IsSpace;
    if s != "" {
      assert s[0] in s;
      SpaceHasNo(Step(st, s[0]), s[1..], c);
    }
  }

  /** Counted on the raw line, as parse_locals and parse_modules do, the braces of a comment count too. */
  lemma CommentBracesCount(line: string)
    ensures Depth(line) == Depth(Uncommented(line)) + Depth(line[CommentAt(START, line)..])
  {
    hide IsSpace, RStrip, CommentAt, Count, Scan, AllSpace;
    var t, cut := Uncommented(line), CommentAt(START, line);
    UncommentedIsPrefix(line);
    NotSpaces();
    forall c | c in "{}" ensures Count(START, line, c) == Count(START, t, c) + Count(START, line[cut..], c) {
      assert line == line[..cut] + line[cut..] && line[..cut] == t + line[|t|..cut];
      CountConcat(START, line[..cut], line[cut..], c);
      CountConcat(START, t, line[|t|..cut], c);
      SpaceHasNo(Scan(START, t), line[|t|..cut], c);
      if cut == |line| { NothingCounted(line[cut..], c); }
    }
    assert '{' in "{}" && '}' in "{}";
  }

  lemma NothingCounted(s: string, c: char)
    requires s == ""
    ensures forall st :: Count(st, s, c) == 0
  {
  }

  lemma NotSpaces()
    ensures forall c :: c in "{}" ==> !IsSpace(c)
  {
  }
}
