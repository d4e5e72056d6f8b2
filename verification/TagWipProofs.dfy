/** What the feature tagger guarantees about the file it leaves. */
module TagWipProofs {
  import opened PyText
  import opened TagWip
  import opened Text

  // ---------------------------------------------------------------- lines

  lemma {:induction false} LStripLead(lead: string, t: string)
    requires AllSpace(lead) && t != "" && !PyText.IsSpace(t[0])
    ensures LStrip(lead + t) == t
  {
    hide PyText.IsSpace;
    if lead == "" {
      assert lead + t == t;
    } else {
      assert lead[0] in lead && (lead + t)[1..] == lead[1..] + t;
      assert forall c :: c in lead[1..] ==> c in lead;
      LStripLead(lead[1..], t);
    }
  }

  lemma MarksAreNoSpace()
    ensures !PyText.IsSpace('@') && !PyText.IsSpace('S') && '@' != '\n'
  {
  }

  /** A tag line starts no scenario and is not blank; neither is a scenario line. */
  lemma KindsDiffer(line: string)
    ensures IsTag(line) ==> ScenarioName(line).None? && !IsBlank(line)
    ensures ScenarioName(line).Some? ==> !IsBlank(line)
  {
    hide PyText.IsSpace, AllSpace, LStrip;
    var t := LStrip(line);
    MarksAreNoSpace();
    if IsTag(line) {
      assert t[0] == '@';
      RStripFacts(t);
      SpaceFirst(t);
    } else if ScenarioName(line).Some? {
      assert t[0] == 'S';
      SpaceFirst(t);
    }
  }

  lemma SpaceFirst(t: string)
    requires t != "" && !PyText.IsSpace(t[0])
    ensures RStrip(t) != ""
  {
  }

  lemma {:induction false} ChompFacts(line: string)
    ensures Chomp(line) <= line && forall k :: |Chomp(line)| <= k < |line| ==> line[k] == '\n'
  {
    if line != "" && line[|line| - 1] == '\n' { ChompFacts(line[..|line| - 1]); }
  }

  lemma WipAtEnd(s: string)
    ensures HasWip(s + "@wip\n")
  {
    var t := s + "@wip\n";
    assert WipAt(t, |s|);
  }

  /** The tag line put above a scenario. */
  lemma NewTagFacts(line: string)
    ensures IsTag(NewTag(line)) && HasWip(NewTag(line))
  {
    hide PyText.IsSpace, AllSpace, LStrip, HasWip;
    LStripFacts(line);
    var lead := line[..|line| - |LStrip(line)|];
    MarksAreNoSpace();
    LStripLead(lead, "@wip\n");
    WipAtEnd(lead);
  }

  /** A tag line with @wip appended is still a tag line. */
  lemma ExtendedFacts(line: string)
    requires IsTag(line)
    ensures IsTag(Extended(line)) && HasWip(Extended(line))
  {
    hide PyText.IsSpace, AllSpace, LStrip, HasWip, Chomp;
    LStripFacts(line);
    ChompFacts(line);
    MarksAreNoSpace();
    var t, s := LStrip(line), Chomp(line);
    var n := |line| - |t|;
    assert line[n] == t[0] == '@';
    assert n < |s| && s[..n] == line[..n] && s[n] == '@';
    assert Extended(line) == line[..n] + (s[n..] + " @wip\n");
    LStripLead(line[..n], s[n..] + " @wip\n");
    assert Extended(line) == (s + " ") + "@wip\n";
    WipAtEnd(s + " ");
  }

  // ---------------------------------------------------------------- @wip above every failing scenario

  ghost predicate AllTagged(lines: seq<string>, failing: set<string>) {
    forall i :: 0 <= i < |lines| && IsFailing(lines[i], failing) ==> WipAbove(lines[..i])
  }

  lemma TaggedOneMore(done: seq<string>, line: string, failing: set<string>)
    requires AllTagged(done, failing) && (IsFailing(line, failing) ==> WipAbove(done))
    ensures AllTagged(done + [line], failing)
  {
    hide IsFailing, WipAbove;
    var more := done + [line];
    forall i | 0 <= i < |more| && IsFailing(more[i], failing) ensures WipAbove(more[..i]) {
      if i < |done| { assert more[..i] == done[..i]; } else { assert more[..i] == done; }
    }
  }

  /** The position of the last text depends on which lines are blank, no more. */
  lemma {:induction false} LastTextAt(lines: seq<string>, j: nat)
    requires j < |lines| && !IsBlank(lines[j]) && forall k :: j < k < |lines| ==> IsBlank(lines[k])
    ensures LastText(lines) == Some(j)
  {
    hide IsBlank;
    if j < |lines| - 1 { LastTextAt(lines[..|lines| - 1], j); }
  }

  lemma ExtendedAbove(done: seq<string>, j: nat, failing: set<string>)
    requires AllTagged(done, failing) && LastText(done) == Some(j) && IsTag(done[j])
    ensures AllTagged(done[j := Extended(done[j])], failing) && WipAbove(done[j := Extended(done[j])])
  {
    hide IsBlank, IsTag, HasWip, Extended, ScenarioName, LastText;
    var edited := done[j := Extended(done[j])];
    LastTextFacts(done);
    ExtendedFacts(done[j]);
    KindsDiffer(Extended(done[j]));
    LastTextAt(edited, j);
    forall i | 0 <= i < |edited| && IsFailing(edited[i], failing) ensures WipAbove(edited[..i]) {
      KindsDiffer(edited[i]);
      assert i < j;
      assert edited[..i] == done[..i];
    }
  }

  lemma PassKeepsTagged(done: seq<string>, line: string, failing: set<string>)
    requires AllTagged(done, failing)
    ensures AllTagged(Pass(done, line, failing), failing)
  {
    hide IsBlank, IsTag, HasWip, Extended, NewTag, ScenarioName, LastText, AllTagged;
    LastTextFacts(done);
    var j := LastText(done);
    if !IsFailing(line, failing) || WipAbove(done) {
      TaggedOneMore(done, line, failing);
    } else if j.Some? && IsTag(done[j.value]) {
      ExtendedAbove(done, j.value, failing);
      TaggedOneMore(done[j.value := Extended(done[j.value])], line, failing);
    } else {
      NewTagFacts(line);
      KindsDiffer(NewTag(line));
      TaggedOneMore(done, NewTag(line), failing);
      LastTextAt(done + [NewTag(line)], |done|);
      TaggedOneMore(done + [NewTag(line)], line, failing);
      assert done + [NewTag(line)] + [line] == done + [NewTag(line), line];
    }
  }

  /** After a run, the nearest text above every failing scenario is a tag line with @wip. */
  lemma {:induction false} EveryFailureIsTagged(done: seq<string>, rest: seq<string>, failing: set<string>)
    requires AllTagged(done, failing)
    ensures AllTagged(PassAll(done, rest, failing), failing)
    decreases |rest|
  {
    hide AllTagged, Pass;
    if rest != [] {
      PassKeepsTagged(done, rest[0], failing);
      EveryFailureIsTagged(Pass(done, rest[0], failing), rest[1..], failing);
    }
  }

  // ---------------------------------------------------------------- a second run

  lemma {:induction false} TaggedStays(done: seq<string>, rest: seq<string>, failing: set<string>)
    requires AllTagged(done + rest, failing)
    ensures PassAll(done, rest, failing) == done + rest && PassCount(done, rest, failing) == 0
    decreases |rest|
  {
    hide IsFailing, WipAbove;
    if rest == [] {
      assert done + rest == done;
    } else {
      assert (done + rest)[|done|] == rest[0] && (done + rest)[..|done|] == done;
      assert done + [rest[0]] + rest[1..] == done + rest;
      TaggedStays(done + [rest[0]], rest[1..], failing);
    }
  }

  /** A second run with the same failures changes nothing. */
  lemma SecondRunChangesNothing(lines: seq<string>, failing: set<string>)
    ensures var once := PassAll([], lines, failing);
      PassAll([], once, failing) == once && PassCount([], once, failing) == 0
  {
    hide IsFailing, WipAbove, PassAll, PassCount;
    var once := PassAll([], lines, failing);
    EveryFailureIsTagged([], lines, failing);
    assert [] + once == once;
    TaggedStays([], once, failing);
  }

  // ---------------------------------------------------------------- nothing else changes

  predicate LineKept(original: string, line: string) {
    line == original || (IsTag(original) && !HasWip(original) && line == Extended(original))
  }

  /**
   * The original lines are all there, in order: a tag line may have @wip appended, and a new tag line
   * may stand directly above a failing scenario.
   */
  predicate Keeps(original: seq<string>, lines: seq<string>, failing: set<string>)
    decreases |original|
  {
    if original == [] then lines == []
    else
      var n := |lines|;
      && n > 0 && LineKept(original[|original| - 1], lines[n - 1])
      && (Keeps(original[..|original| - 1], lines[..n - 1], failing)
          || (n > 1 && IsFailing(lines[n - 1], failing) && lines[n - 2] == NewTag(lines[n - 1])
              && Keeps(original[..|original| - 1], lines[..n - 2], failing)))
  }

  lemma {:induction false} ExtendingKeeps(original: seq<string>, lines: seq<string>, failing: set<string>, j: nat)
    requires Keeps(original, lines, failing) && j < |lines| && IsTag(lines[j]) && !HasWip(lines[j])
    ensures Keeps(original, lines[j := Extended(lines[j])], failing)
    decreases |original|
  {
    hide IsTag, HasWip, Extended, NewTag, ScenarioName;
    var n, o := |lines|, original[..|original| - 1];
    var edited := lines[j := Extended(lines[j])];
    ExtendedFacts(lines[j]);
    KindsDiffer(lines[j]);
    if j == n - 1 {
      if original[|original| - 1] != lines[j] { ExtendedFacts(original[|original| - 1]); }
      assert edited[..n - 1] == lines[..n - 1];
    } else if Keeps(o, lines[..n - 1], failing) {
      ExtendingKeeps(o, lines[..n - 1], failing, j);
      assert edited[..n - 1] == lines[..n - 1][j := Extended(lines[j])];
    } else {
      NewTagFacts(lines[n - 1]);
      ExtendingKeeps(o, lines[..n - 2], failing, j);
      assert edited[..n - 2] == lines[..n - 2][j := Extended(lines[j])];
    }
  }

  lemma PassKeepsLines(original: seq<string>, done: seq<string>, line: string, failing: set<string>)
    requires Keeps(original, done, failing)
    ensures Keeps(original + [line], Pass(done, line, failing), failing)
  {
    hide IsTag, HasWip, Extended, NewTag, ScenarioName, LastText, IsBlank;
    var more := original + [line];
    assert more[..|more| - 1] == original && more[|more| - 1] == line;
    LastTextFacts(done);
    var j := LastText(done);
    var passed := Pass(done, line, failing);
    if !IsFailing(line, failing) || WipAbove(done) {
      assert passed[..|passed| - 1] == done;
    } else if j.Some? && IsTag(done[j.value]) {
      ExtendingKeeps(original, done, failing, j.value);
      assert passed[..|passed| - 1] == done[j.value := Extended(done[j.value])];
    } else {
      assert passed[..|passed| - 2] == done;
    }
  }

  /** A run keeps every original line, in order. */
  lemma {:induction false} OriginalLinesKept(original: seq<string>, done: seq<string>, rest: seq<string>,
                                             failing: set<string>)
    requires Keeps(original, done, failing)
    ensures Keeps(original + rest, PassAll(done, rest, failing), failing)
    decreases |rest|
  {
    hide Pass, Keeps;
    if rest == [] {
      assert original + rest == original;
    } else {
      PassKeepsLines(original, done, rest[0], failing);
      OriginalLinesKept(original + [rest[0]], Pass(done, rest[0], failing), rest[1..], failing);
      assert original + [rest[0]] + rest[1..] == original + rest;
    }
  }

  // ---------------------------------------------------------------- how many were tagged

  function TextOf(lines: seq<string>): Option<string> {
    LastTextFacts(lines);
    if LastText(lines).Some? then Some(lines[LastText(lines).value]) else None
  }

  lemma TextOfOneMore(lines: seq<string>, line: string)
    ensures TextOf(lines + [line]) == if IsBlank(line) then TextOf(lines) else Some(line)
  {
  }

  lemma PassKeepsText(original: seq<string>, done: seq<string>, line: string, failing: set<string>)
    requires TextOf(original) == TextOf(done)
    ensures TextOf(original + [line]) == TextOf(Pass(done, line, failing))
  {
    hide TextOf, IsBlank, IsTag, HasWip, Extended, NewTag, ScenarioName, LastText;
    LastTextFacts(done);
    TextOfOneMore(original, line);
    KindsDiffer(line);
    var j := LastText(done);
    if !IsFailing(line, failing) || WipAbove(done) {
      TextOfOneMore(done, line);
    } else if j.Some? && IsTag(done[j.value]) {
      TextOfOneMore(done[j.value := Extended(done[j.value])], line);
    } else {
      TextOfOneMore(done + [NewTag(line)], line);
      assert done + [NewTag(line)] + [line] == done + [NewTag(line), line];
    }
  }

  lemma {:induction false} CountAgrees(original: seq<string>, done: seq<string>, rest: seq<string>,
                                       failing: set<string>)
    requires TextOf(original) == TextOf(done)
    ensures Untagged(original + rest, failing) == Untagged(original, failing) + PassCount(done, rest, failing)
    decreases |rest|
  {
    hide IsFailing, Pass, IsBlank, IsTag, HasWip, LastText;
    if rest == [] {
      assert original + rest == original;
    } else {
      var more := original + [rest[0]];
      PassKeepsText(original, done, rest[0], failing);
      CountAgrees(more, Pass(done, rest[0], failing), rest[1..], failing);
      assert more + rest[1..] == original + rest && more[..|more| - 1] == original;
    }
  }

  /** The number reported is the number of failing scenarios that had no @wip above them. */
  lemma CountIsUntagged(lines: seq<string>, failing: set<string>)
    ensures PassCount([], lines, failing) == Untagged(lines, failing)
  {
    hide TextOf, PassCount, IsFailing;
    CountAgrees([], [], lines, failing);
    assert [] + lines == lines;
  }
}
