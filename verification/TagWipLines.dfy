/** The lines that the feature tagger looks for and writes, spelled out. */
module TagWipLines {
  import opened PyText
  import opened Text
  import opened TagWip
  import opened TagWipProofs

  predicate Spelled(line: string, lead: string, kind: string, rest: string) {
    line == lead + (kind + rest) && AllSpace(lead)
  }

  /** White space, one of the two keywords, and the name, with white space around it. */
  ghost predicate ScenarioLine(line: string, name: string) {
    exists lead, kind, rest :: (kind == "Scenario:" || kind == "Scenario Outline:")
      && Spelled(line, lead, kind, rest) && name == Strip(rest)
  }

  ghost predicate TagLine(line: string) {
    exists lead, rest :: Spelled(line, lead, "@", rest)
  }

  predicate HasAt(line: string, before: string, text: string, behind: string) {
    line == before + (text + behind)
  }

  ghost predicate WithWip(line: string) {
    exists before, behind :: HasAt(line, before, "@wip", behind)
  }

  lemma LeadOf(line: string) returns (lead: string)
    ensures line == lead + LStrip(line) && AllSpace(lead)
  {
    LStripFacts(line);
    lead := line[..|line| - |LStrip(line)|];
  }

  lemma WordFirst(kind: string, t: string)
    requires kind <= t
    ensures t == kind + t[|kind|..]
  {
  }

  lemma KindsDifferEarly(rest: string)
    ensures !("Scenario:" <= "Scenario Outline:" + rest)
  {
    var t := "Scenario Outline:" + rest;
    assert t[8] == ' ' && "Scenario:"[8] == ':';
  }

  /** Exactly such lines start a scenario. */
  lemma ScenariosExactly(line: string, name: string)
    ensures ScenarioName(line) == Some(name) <==> ScenarioLine(line, name)
  {
    hide LStrip, RStrip, PyText.IsSpace, AllSpace;
    if ScenarioName(line) == Some(name) {
      var lead := LeadOf(line);
      var t := LStrip(line);
      var kind := if "Scenario:" <= t then "Scenario:" else "Scenario Outline:";
      WordFirst(kind, t);
      assert Spelled(line, lead, kind, t[|kind|..]);
    }
    if ScenarioLine(line, name) {
      var lead, kind, rest :| (kind == "Scenario:" || kind == "Scenario Outline:")
        && Spelled(line, lead, kind, rest) && name == Strip(rest);
      var t := kind + rest;
      MarksAreNoSpace();
      assert t[0] == 'S' && t[|kind|..] == rest;
      LStripLead(lead, t);
      KindsDifferEarly(rest);
    }
  }

  ghost predicate FailingLine(line: string, failing: set<string>) {
    exists name :: name in failing && ScenarioLine(line, name)
  }

  lemma FailuresExactly(line: string, failing: set<string>)
    ensures IsFailing(line, failing) <==> FailingLine(line, failing)
  {
    hide ScenarioName, ScenarioLine;
    forall name ensures ScenarioName(line) == Some(name) <==> ScenarioLine(line, name) {
      ScenariosExactly(line, name);
    }
  }

  lemma TagsExactly(line: string)
    ensures IsTag(line) <==> TagLine(line)
  {
    hide LStrip, PyText.IsSpace, AllSpace;
    if IsTag(line) {
      var lead := LeadOf(line);
      WordFirst("@", LStrip(line));
      assert Spelled(line, lead, "@", LStrip(line)[1..]);
    }
    if TagLine(line) {
      var lead, rest :| Spelled(line, lead, "@", rest);
      MarksAreNoSpace();
      assert ("@" + rest)[0] == '@';
      LStripLead(lead, "@" + rest);
    }
  }

  lemma WipsExactly(line: string)
    ensures HasWip(line) <==> WithWip(line)
  {
    if HasWip(line) {
      var k :| 0 <= k < |line| && WipAt(line, k);
      assert line == line[..k] + line[k..k + 4] + line[k + 4..];
      assert HasAt(line, line[..k], "@wip", line[k + 4..]);
    }
    if WithWip(line) {
      var before, behind :| HasAt(line, before, "@wip", behind);
      assert line[|before|..|before| + 4] == "@wip";
      assert WipAt(line, |before|);
    }
  }

  lemma BlanksExactly(line: string)
    ensures IsBlank(line) <==> AllSpace(line)
  {
    hide PyText.IsSpace;
    var t := LStrip(line);
    LStripFacts(line);
    RStripFacts(t);
    var lead := line[..|line| - |t|];
    assert forall c :: c in t ==> c in line;
    if t != "" {
      assert t[0] in line;
    } else {
      assert line == lead;
    }
  }

  /** After a run every failing scenario has a tag line with @wip above it, with nothing but blank lines between. */
  lemma FailuresCarryWip(lines: seq<string>, failing: set<string>, i: nat)
    requires i < |PassAll([], lines, failing)| && FailingLine(PassAll([], lines, failing)[i], failing)
    ensures var out := PassAll([], lines, failing);
      exists j :: 0 <= j < i && TagLine(out[j]) && WithWip(out[j]) && forall k :: j < k < i ==> AllSpace(out[k])
  {
    hide IsFailing, IsTag, HasWip, IsBlank, PassAll, FailingLine, TagLine, WithWip, AllSpace, LastText;
    var out := PassAll([], lines, failing);
    EveryFailureIsTagged([], lines, failing);
    FailuresExactly(out[i], failing);
    var above := out[..i];
    LastTextFacts(above);
    var j := LastText(above).value;
    assert above[j] == out[j];
    TagsExactly(out[j]);
    WipsExactly(out[j]);
    forall k | j < k < i ensures AllSpace(out[k]) {
      assert above[k] == out[k];
      BlanksExactly(out[k]);
    }
  }

  lemma {:induction false} ChompsBreaks(text: string, breaks: string)
    requires (text == "" || text[|text| - 1] != '\n') && forall c :: c in breaks ==> c == '\n'
    ensures Chomp(text + breaks) == text
  {
    var s := text + breaks;
    if breaks == "" {
      assert s == text;
    } else {
      var n := |breaks| - 1;
      assert breaks[n] in breaks && s[..|s| - 1] == text + breaks[..n];
      assert forall c :: c in breaks[..n] ==> c in breaks;
      ChompsBreaks(text, breaks[..n]);
    }
  }

  /** A tag line is extended by @wip behind its text; a new one has the indent of its scenario. */
  lemma WrittenLines(text: string, lead: string, kind: string, rest: string)
    requires text == "" || text[|text| - 1] != '\n'
    requires AllSpace(lead) && (kind == "Scenario:" || kind == "Scenario Outline:")
    ensures Extended(text) == Extended(text + "\n") == text + " @wip\n"
    ensures NewTag(lead + (kind + rest)) == lead + "@wip\n"
  {
    hide LStrip, PyText.IsSpace, AllSpace, Chomp;
    ChompsBreaks(text, "");
    ChompsBreaks(text, "\n");
    assert text + "" == text;
    MarksAreNoSpace();
    var t := kind + rest;
    assert t[0] == 'S';
    LStripLead(lead, t);
    LStripFacts(lead + t);
    assert (lead + t)[..|lead + t| - |t|] == lead;
  }
}
