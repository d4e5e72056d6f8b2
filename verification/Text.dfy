/** The string helpers of the Go and Python standard libraries that the modelled code calls. */
module Text {

  datatype Option<+T> = None | Some(value: T)

  /** The preferred text, unless it is empty. */
  function FirstOf(preferred: string, other: string): string {
    if preferred != "" then preferred else other
  }

  /** The white space of Go's unicode.IsSpace. */
  predicate IsSpace(c: char) {
    || c in "\t\n\r "
    || c == '\U{0B}' || c == '\U{0C}' || c == '\U{85}' || c == '\U{A0}' || c == '\U{1680}'
    || '\U{2000}' <= c <= '\U{200A}'
    || c == '\U{2028}' || c == '\U{2029}' || c == '\U{202F}' || c == '\U{205F}' || c == '\U{3000}'
  }

  function TrimLeft(s: string): (t: string)
    ensures t == "" || !IsSpace(t[0])
    ensures |t| <= |s| && t == s[|s| - |t|..]
    ensures forall k :: 0 <= k < |s| - |t| ==> IsSpace(s[k])
  {
    if s != "" && IsSpace(s[0]) then TrimLeft(s[1..]) else s
  }

  function TrimRight(s: string): (t: string)
    ensures t <= s
    ensures t == "" || !IsSpace(t[|t| - 1])
    ensures forall k :: |t| <= k < |s| ==> IsSpace(s[k])
  {
    if s != "" && IsSpace(s[|s| - 1]) then TrimRight(s[..|s| - 1]) else s
  }

  /** strings.TrimSpace */
  function TrimSpace(s: string): string {
    TrimRight(TrimLeft(s))
  }

  lemma TrimIsInside(s: string)
    ensures forall c :: c in TrimSpace(s) ==> c in s
  {
    var t := TrimLeft(s);
    forall c | c in TrimRight(t) ensures c in s { assert c in t; }
  }

  /** The text trims to nothing. */
  predicate Blank(s: string) {
    forall k :: 0 <= k < |s| ==> IsSpace(s[k])
  }

  lemma BlankTrimsToNothing(s: string)
    ensures Blank(s) <==> TrimSpace(s) == ""
  {
  }

  /** Where the separator first occurs, or the length. */
  function IndexOf(sep: char, s: string): nat {
    if s == "" || s[0] == sep then 0 else 1 + IndexOf(sep, s[1..])
  }

  lemma {:induction false} IndexOfPiece(sep: char, a: string, s: string)
    requires sep !in a && (s == "" || s[0] == sep)
    ensures IndexOf(sep, a + s) == |a|
  {
    if a == "" { assert a + s == s; } else { IndexOfPiece(sep, a[1..], s); assert (a + s)[1..] == a[1..] + s; }
  }

  /** Separator-free pieces followed by nothing or by the separator agree when the texts do. */
  lemma FirstPiece(sep: char, a: string, s: string, b: string, t: string)
    requires sep !in a && sep !in b && a + s == b + t
    requires (s == "" || s[0] == sep) && (t == "" || t[0] == sep)
    ensures a == b && s == t
  {
    IndexOfPiece(sep, a, s);
    IndexOfPiece(sep, b, t);
    assert a == (a + s)[..|a|] && b == (b + t)[..|b|];
    assert s == (a + s)[|a|..] && t == (b + t)[|b|..];
  }

  /** How often c occurs. */
  function CountOf(c: char, s: string): nat {
    if s == "" then 0 else (if s[0] == c then 1 else 0) + CountOf(c, s[1..])
  }

  lemma {:induction false} CountOfNone(c: char, s: string)
    requires c !in s
    ensures CountOf(c, s) == 0
  {
    if s != "" { CountOfNone(c, s[1..]); }
  }

  /** Pieces with equally many separators in them, followed by the separator, agree when the texts do. */
  lemma {:induction false} NextPiece(sep: char, a: string, s: string, b: string, t: string)
    requires CountOf(sep, a) == CountOf(sep, b) && a + ([sep] + s) == b + ([sep] + t)
    ensures a == b && s == t
  {
    Peel(a, [sep] + s);
    Peel(b, [sep] + t);
    Peel([sep], s);
    Peel([sep], t);
    if a != "" && b != "" {
      NextPiece(sep, a[1..], s, b[1..], t);
      assert a == [a[0]] + a[1..] && b == [b[0]] + b[1..];
    }
  }

  lemma Peel(a: string, rest: string)
    ensures if a == "" then a + rest == rest else (a + rest)[0] == a[0] && (a + rest)[1..] == a[1..] + rest
  {
  }

  // ---------------------------------------------------------------- case, for ASCII letters

  function LowerChar(c: char): char {
    if 'A' <= c <= 'Z' then c + 32 as char else c
  }

  /** strings.ToLower */
  function ToLower(s: string): (t: string)
    ensures |t| == |s| && forall k :: 0 <= k < |s| ==> t[k] == LowerChar(s[k])
  {
    if s == "" then "" else [LowerChar(s[0])] + ToLower(s[1..])
  }

  /** strings.EqualFold */
  predicate EqualFold(s: string, t: string) {
    ToLower(s) == ToLower(t)
  }

  // ---------------------------------------------------------------- decimal numbers

  predicate IsDigit(c: char) { '0' <= c <= '9' }

  predicate AllDigits(s: string) {
    forall k :: 0 <= k < |s| ==> IsDigit(s[k])
  }

  function Decimal(n: nat): (s: string)
    ensures s != "" && forall k :: 0 <= k < |s| ==> IsDigit(s[k])
  {
    (if n < 10 then "" else Decimal(n / 10)) + ['0' + (n % 10) as char]
  }

  function DigitsValue(s: string): nat
    requires AllDigits(s)
  {
    if s == "" then 0
    else
      assert IsDigit(s[|s| - 1]);
      10 * DigitsValue(s[..|s| - 1]) + (s[|s| - 1] - '0') as nat
  }

  /** strconv.Atoi: an optional sign, at least one digit, and a 64-bit result. */
  function Atoi(s: string): Option<int> {
    var digits := if s != "" && (s[0] == '+' || s[0] == '-') then s[1..] else s;
    if digits == "" || !AllDigits(digits) then None
    else
      var v: int := DigitsValue(digits);
      var n := if s[0] == '-' then -v else v;
      if -0x8000_0000_0000_0000 <= n < 0x8000_0000_0000_0000 then Some(n) else None
  }

  lemma {:induction false} DigitsOfDecimal(n: nat)
    ensures DigitsValue(Decimal(n)) == n
  {
    var s := Decimal(n);
    if n < 10 {
      assert s[..|s| - 1] == "";
    } else {
      DigitsOfDecimal(n / 10);
      assert s[..|s| - 1] == Decimal(n / 10);
    }
  }
}
