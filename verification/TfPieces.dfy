/** What the scanners of tf2yaml.py make of a line that is spelled out piece by piece: bare text and strings. */
module TfPieces {
  import opened PyText
  import opened Text
  import opened TfScanners

  /** A character of a string, plain or behind a backslash. */
  datatype Unit = Plainly(c: char) | Escaped(c: char)

  datatype Piece = Bare(text: string) | InSingle(units: seq<Unit>) | InDouble(units: seq<Unit>)

  function Units(units: seq<Unit>): string {
    if units == [] then ""
    else (if units[0].Plainly? then [units[0].c] else ['\\', units[0].c]) + Units(units[1..])
  }

  function Spelled(pieces: seq<Piece>): string {
    if pieces == [] then ""
    else
      (match pieces[0]
       case Bare(text) => text
       case InSingle(units) => "'" + (Units(units) + "'")
       case InDouble(units) => "\"" + (Units(units) + "\"")) + Spelled(pieces[1..])
  }

  predicate IsBare(c: char) {
    c != '"' && c != '\'' && c != '\\' && c != '#' && c != '/'
  }

  predicate AllBare(text: string) {
    forall c :: c in text ==> IsBare(c)
  }

  /** Plain characters are neither the quote nor a backslash. */
  predicate QuoteEscaped(units: seq<Unit>, quote: char) {
    forall j :: 0 <= j < |units| && units[j].Plainly? ==> units[j].c != quote && units[j].c != '\\'
  }

  /** Bare text has no quote, backslash, number sign or slash; a string has its own quote only escaped. */
  predicate WellSpelled(pieces: seq<Piece>) {
    forall i :: 0 <= i < |pieces| ==>
      match pieces[i]
      case Bare(text) => AllBare(text)
      case InSingle(units) => QuoteEscaped(units, '\'')
      case InDouble(units) => QuoteEscaped(units, '"')
  }

  /** How often a character is in the bare text. */
  function BareCount(pieces: seq<Piece>, c: char): nat {
    if pieces == [] then 0
    else (if pieces[0].Bare? then CountOf(c, pieces[0].text) else 0) + BareCount(pieces[1..], c)
  }

  /** Nothing up to the end of a is a comment or counts, and the scanner then stands in st. */
  ghost predicate Passes(from: State, a: string, st: State, braces: nat, c: char) {
    && Scan(from, a) == st && Count(from, a, c) == braces
    && forall rest :: CommentAt(from, a + rest) == |a| + CommentAt(st, rest)
  }

  lemma PassesConcat(from: State, a: string, st: State, m: nat, b: string, to: State, n: nat, c: char)
    requires Passes(from, a, st, m, c) && Passes(st, b, to, n, c)
    ensures Passes(from, a + b, to, m + n, c)
  {
    hide Scan, Count, CommentAt;
    ScanConcat(from, a, b);
    CountConcat(from, a, b, c);
    forall rest ensures CommentAt(from, (a + b) + rest) == |a + b| + CommentAt(to, rest) {
      assert (a + b) + rest == a + (b + rest);
    }
  }

  lemma {:induction false} ScanConcat(st: State, a: string, b: string)
    ensures Scan(st, a + b) == Scan(Scan(st, a), b)
    decreases |a|
  {
    if a == "" {
      assert a + b == b;
    } else {
      assert (a + b)[1..] == a[1..] + b;
      ScanConcat(Step(st, a[0]), a[1..], b);
    }
  }

  lemma PassesNothing(st: State, c: char)
    ensures Passes(st, "", st, 0, c)
  {
    forall rest: string ensures "" + rest == rest {}
  }

  /** One character that starts no comment where the scanner stands. */
  lemma PassesOne(from: State, x: char, c: char)
    requires from != START || (x != '#' && x != '/')
    ensures Passes(from, [x], Step(from, x), if from == START && x == c then 1 else 0, c)
  {
    var st := Step(from, x);
    assert [x][1..] == "";
    forall rest ensures CommentAt(from, [x] + rest) == 1 + CommentAt(st, rest) {
      var s := [x] + rest;
      assert s[0] == x && s[1..] == rest;
      CommentAtStep(from, s);
    }
  }

  lemma PassesBareChar(x: char, c: char)
    requires IsBare(x)
    ensures Passes(START, [x], START, if x == c then 1 else 0, c)
  {
    hide Passes;
    PassesOne(START, x, c);
  }

  lemma {:induction false} PassesBare(text: string, c: char)
    requires AllBare(text)
    ensures Passes(START, text, START, CountOf(c, text), c)
  {
    hide Passes, IsBare;
    if text == "" {
      PassesNothing(START, c);
    } else {
      assert text[0] in text && text == [text[0]] + text[1..];
      assert AllBare(text[1..]);
      PassesBareChar(text[0], c);
      PassesBare(text[1..], c);
      PassesConcat(START, [text[0]], START, if text[0] == c then 1 else 0, text[1..], START, CountOf(c, text[1..]), c);
    }
  }

  /** The state inside a string with this quote. */
  predicate Inside(st: State, quote: char) {
    (quote == '\'' && st == State(Single, false)) || (quote == '"' && st == State(Double, false))
  }

  lemma PassesPlain(st: State, quote: char, x: char, c: char)
    requires Inside(st, quote) && x != quote && x != '\\'
    ensures Passes(st, [x], st, 0, c)
  {
    hide Passes;
    PassesOne(st, x, c);
  }

  lemma BackslashSteps(st: State, quote: char, x: char)
    requires Inside(st, quote)
    ensures Step(st, '\\') == State(st.quote, true) && Step(State(st.quote, true), x) == st && st != START
  {
  }

  lemma PassesBackslash(st: State, quote: char, x: char, c: char)
    requires Inside(st, quote)
    ensures Passes(st, ['\\', x], st, 0, c)
  {
    hide Passes, Step;
    var escaped, b := State(st.quote, true), '\\';
    BackslashSteps(st, quote, x);
    PassesOne(st, b, c);
    PassesOne(escaped, x, c);
    PassesConcat(st, [b], escaped, 0, [x], st, 0, c);
    assert [b] + [x] == [b, x];
  }

  lemma PassesQuotes(st: State, quote: char, c: char)
    requires Inside(st, quote) && c != quote
    ensures Passes(START, [quote], st, 0, c) && Passes(st, [quote], START, 0, c)
  {
    hide Passes;
    PassesOne(START, quote, c);
    PassesOne(st, quote, c);
  }

  lemma {:induction false} PassesUnits(st: State, quote: char, units: seq<Unit>, c: char)
    requires Inside(st, quote) && QuoteEscaped(units, quote)
    ensures Passes(st, Units(units), st, 0, c)
  {
    hide Passes, Inside;
    if units == [] {
      PassesNothing(st, c);
    } else {
      var rest := Units(units[1..]);
      assert QuoteEscaped(units[1..], quote);
      PassesUnits(st, quote, units[1..], c);
      if units[0].Plainly? {
        PassesPlain(st, quote, units[0].c, c);
        PassesConcat(st, [units[0].c], st, 0, rest, st, 0, c);
      } else {
        PassesBackslash(st, quote, units[0].c, c);
        PassesConcat(st, ['\\', units[0].c], st, 0, rest, st, 0, c);
      }
    }
  }

  lemma PassesString(st: State, quote: char, units: seq<Unit>, c: char)
    requires Inside(st, quote) && QuoteEscaped(units, quote) && c != quote
    ensures Passes(START, [quote] + (Units(units) + [quote]), START, 0, c)
  {
    hide Passes, Units, Inside, QuoteEscaped;
    PassesQuotes(st, quote, c);
    PassesUnits(st, quote, units, c);
    PassesConcat(st, Units(units), st, 0, [quote], START, 0, c);
    PassesConcat(START, [quote], st, 0, Units(units) + [quote], START, 0, c);
  }

  lemma {:induction false} PassesPieces(pieces: seq<Piece>, c: char)
    requires WellSpelled(pieces) && c != '"' && c != '\''
    ensures Passes(START, Spelled(pieces), START, BareCount(pieces, c), c)
  {
    hide Passes, Units, AllBare, QuoteEscaped;
    if pieces == [] {
      PassesNothing(START, c);
    } else {
      PassesPieces(pieces[1..], c);
      var rest, n := Spelled(pieces[1..]), BareCount(pieces[1..], c);
      match pieces[0]
      case Bare(text) =>
        PassesBare(text, c);
        PassesConcat(START, text, START, CountOf(c, text), rest, START, n, c);
      case InSingle(units) =>
        PassesString(State(Single, false), '\'', units, c);
        PassesConcat(START, "'" + (Units(units) + "'"), START, 0, rest, START, n, c);
      case InDouble(units) =>
        PassesString(State(Double, false), '"', units, c);
        PassesConcat(START, "\"" + (Units(units) + "\""), START, 0, rest, START, n, c);
    }
  }

  /** A comment starts at a number sign or two slashes behind any pieces, and nowhere inside them. */
  lemma CommentsStartOutsideStrings(pieces: seq<Piece>, comment: string)
    requires WellSpelled(pieces)
    ensures Uncommented(Spelled(pieces)) == RStrip(Spelled(pieces))
    ensures Uncommented(Spelled(pieces) + ("#" + comment)) == RStrip(Spelled(pieces))
    ensures Uncommented(Spelled(pieces) + ("//" + comment)) == RStrip(Spelled(pieces))
  {
    hide RStrip, Spelled, WellSpelled;
    var s := Spelled(pieces);
    PassesPieces(pieces, 'x');
    CommentHere(comment);
    assert s + "" == s && s[..|s|] == s;
    assert (s + ("#" + comment))[..|s|] == s && (s + ("//" + comment))[..|s|] == s;
  }

  lemma CommentHere(comment: string)
    ensures CommentAt(START, "#" + comment) == CommentAt(START, "//" + comment) == CommentAt(START, "") == 0
  {
    assert ("//" + comment)[0] == '/' && ("//" + comment)[1] == '/';
  }

  /** The depth of a line is that of its bare text: braces in strings, escaped quotes or not, do not count. */
  lemma DepthIsBareDepth(pieces: seq<Piece>)
    requires WellSpelled(pieces)
    ensures Depth(Spelled(pieces)) == BareCount(pieces, '{') - BareCount(pieces, '}')
  {
    hide Spelled, WellSpelled, BareCount, Count;
    PassesPieces(pieces, '{');
    PassesPieces(pieces, '}');
  }
}
