/** The text helpers spelled out: which letters fold, what is white space, which texts are numbers. */
module TextAnswers {
  import opened Text

  /** By code point, what unicode.IsSpace takes for white space. */
  lemma SpaceCodes(c: char)
    ensures IsSpace(c) <==> var n := c as int;
      9 <= n <= 13 || n in {32, 133, 160, 5760} || 8192 <= n <= 8202 || n in {8232, 8233, 8239, 8287, 12288}
  {
  }

  /** Trimming takes the white space from both ends of a text and nothing else. */
  lemma TrimsExactly(lead: string, s: string, trail: string)
    requires Blank(lead) && Blank(trail) && (s == "" || (!IsSpace(s[0]) && !IsSpace(s[|s| - 1])))
    ensures TrimSpace(lead + (s + trail)) == s
  {
    hide IsSpace, TrimSpace;
    var t := lead + (s + trail);
    if s == "" {
      assert forall k :: 0 <= k < |t| ==> t[k] == if k < |lead| then lead[k] else trail[k - |lead|];
      BlankTrimsToNothing(t);
    } else {
      TrimsLead(lead, s + trail);
      TrimsTrail(s, trail);
      TrimIs(t);
    }
  }

  lemma TrimIs(s: string)
    ensures TrimSpace(s) == TrimRight(TrimLeft(s))
  {
  }

  lemma TrimsLead(lead: string, s: string)
    requires Blank(lead) && s != "" && !IsSpace(s[0])
    ensures TrimLeft(lead + s) == s
  {
    hide IsSpace;
    var t := lead + s;
    var n := |t| - |TrimLeft(t)|;
    assert t[|lead|] == s[0] && forall k :: 0 <= k < |lead| ==> t[k] == lead[k];
    assert n <= |lead|;
    assert n < |t| ==> TrimLeft(t)[0] == t[n];
  }

  lemma TrimsTrail(s: string, trail: string)
    requires Blank(trail) && s != "" && !IsSpace(s[|s| - 1])
    ensures TrimRight(s + trail) == s
  {
    hide IsSpace;
    var t := s + trail;
    var n := |TrimRight(t)|;
    assert t[|s| - 1] == s[|s| - 1] && forall k :: |s| <= k < |t| ==> t[k] == trail[k - |s|];
    assert n >= |s|;
    assert n > 0 ==> TrimRight(t)[n - 1] == t[n - 1];
    assert TrimRight(t) == t[..n];
  }

  /** Two characters are one, or the capital and the small form of one of the 26 letters. */
  predicate SameLetter(a: char, b: char) {
    || a == b
    || (65 <= a as int <= 90 && b as int == a as int + 32)
    || (65 <= b as int <= 90 && a as int == b as int + 32)
  }

  lemma SameLetterExactly(a: char, b: char)
    ensures LowerChar(a) == LowerChar(b) <==> SameLetter(a, b)
    ensures LowerChar(a) as int == if 65 <= a as int <= 90 then a as int + 32 else a as int
  {
  }

  /** Two texts fold together if they agree letter by letter up to case. */
  lemma FoldExactly(s: string, t: string)
    ensures EqualFold(s, t) <==> |s| == |t| && forall k :: 0 <= k < |s| ==> SameLetter(s[k], t[k])
  {
    hide SameLetter, LowerChar;
    if |s| == |t| {
      forall k | 0 <= k < |s| ensures ToLower(s)[k] == ToLower(t)[k] <==> SameLetter(s[k], t[k]) {
        SameLetterExactly(s[k], t[k]);
      }
    }
  }

  /** A number is printed in tens, from the first digit that is not zero. */
  lemma {:induction false} PrintedExactly(n: nat)
    ensures n < 10 ==> |Decimal(n)| == 1 && Decimal(n)[0] as int == 48 + n
    ensures n >= 10 ==> Decimal(n) == Decimal(n / 10) + Decimal(n % 10)
    ensures n > 0 ==> Decimal(n)[0] != '0'
  {
    if n >= 10 { PrintedExactly(n / 10); }
  }

  lemma DigitsFirst(d: string)
    requires d != "" && forall k :: 0 <= k < |d| ==> IsDigit(d[k])
    ensures d[0] != '+' && d[0] != '-'
  {
    assert IsDigit(d[0]);
  }

  /** A number is read with its sign, within 64 bits. */
  lemma NumbersAreRead(d: string)
    requires d != "" && forall k :: 0 <= k < |d| ==> IsDigit(d[k])
    ensures var n: int := DigitsValue(d);
      && Atoi(d) == Atoi("+" + d) == (if n < 0x8000_0000_0000_0000 then Some(n) else None)
      && Atoi("-" + d) == if n <= 0x8000_0000_0000_0000 then Some(-n) else None
  {
    hide DigitsValue, IsDigit;
    DigitsFirst(d);
    assert ("+" + d)[1..] == d && ("-" + d)[1..] == d;
  }

  /** Nothing that is empty behind its sign is a number. */
  lemma SignsAreNoNumbers()
    ensures Atoi("").None? && Atoi("+").None? && Atoi("-").None?
  {
    assert "+"[1..] == "-"[1..] == "";
  }

  /** Nothing with another character than a digit behind its first is a number, and only a sign may be the first. */
  lemma OtherTextIsNoNumber(s: string, k: nat)
    requires k < |s| && !IsDigit(s[k]) && (k == 0 ==> s[0] != '+' && s[0] != '-')
    ensures Atoi(s).None?
  {
    if s[0] == '+' || s[0] == '-' {
      assert !IsDigit(s[1..][k - 1]);
      assert !AllDigits(s[1..]);
    }
  }
}
