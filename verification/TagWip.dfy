/**
 * The feature tagger of hack/tag_wip_failures.py: it scans the lines of a feature file and edits the
 * list it is scanning. Lines are as readlines gives them, with at most one newline, at the end.
 */
module TagWip {
  import opened PyText
  import opened Text

  predicate IsBlank(line: string) {
    Strip(line) == ""
  }

  /** The name of the scenario or scenario outline that a line starts. */
  function ScenarioName(line: string): Option<string> {
    var t := LStrip(line);
    if "Scenario:" <= t then Some(Strip(t[9..]))
    else if "Scenario Outline:" <= t then Some(Strip(t[17..]))
    else None
  }

  predicate IsFailing(line: string, failing: set<string>) {
    ScenarioName(line).Some? && ScenarioName(line).value in failing
  }

  predicate IsTag(line: string) {
    "@" <= LStrip(line)
  }

  predicate WipAt(line: string, k: nat) {
    k + 4 <= |line| && line[k..k + 4] == "@wip"
  }

  predicate HasWip(line: string) {
    exists k :: 0 <= k < |line| && WipAt(line, k)
  }

  function Chomp(line: string): string {
    if line != "" && line[|line| - 1] == '\n' then Chomp(line[..|line| - 1]) else line
  }

  function Extended(line: string): string {
    Chomp(line) + " @wip\n"
  }

  /** The tag line put above a scenario, indented as it is. */
  function NewTag(line: string): string {
    LStripFacts(line);
    line[..|line| - |LStrip(line)|] + "@wip\n"
  }

  /** The last line that is not blank, if there is one. */
  function LastText(lines: seq<string>): (j: Option<nat>)
    ensures j.Some? ==> j.value < |lines|
  {
    if lines == [] then None
    else if !IsBlank(lines[|lines| - 1]) then Some(|lines| - 1)
    else LastText(lines[..|lines| - 1])
  }

  lemma {:induction false} LastTextFacts(lines: seq<string>)
    ensures LastText(lines).Some? ==> LastText(lines).value < |lines| && !IsBlank(lines[LastText(lines).value])
    ensures forall k :: (if LastText(lines).Some? then LastText(lines).value else -1) < k < |lines| ==>
      IsBlank(lines[k])
  {
    hide IsBlank;
    if lines != [] && IsBlank(lines[|lines| - 1]) { LastTextFacts(lines[..|lines| - 1]); }
  }

  /** Above the line to come, the nearest line that is not blank is a tag line with @wip. */
  predicate WipAbove(lines: seq<string>) {
    LastTextFacts(lines);
    var j := LastText(lines);
    j.Some? && IsTag(lines[j.value]) && HasWip(lines[j.value])
  }

  /** What the edited list is once a line has been passed; done are the lines before it. */
  function Pass(done: seq<string>, line: string, failing: set<string>): seq<string> {
    LastTextFacts(done);
    var j := LastText(done);
    if !IsFailing(line, failing) || WipAbove(done) then done + [line]
    else if j.Some? && IsTag(done[j.value]) then done[j.value := Extended(done[j.value])] + [line]
    else done + [NewTag(line), line]
  }

  function PassAll(done: seq<string>, rest: seq<string>, failing: set<string>): seq<string>
    decreases |rest|
  {
    if rest == [] then done else PassAll(Pass(done, rest[0], failing), rest[1..], failing)
  }

  /** How many failing scenarios have no @wip above them. */
  function Untagged(lines: seq<string>, failing: set<string>): nat {
    if lines == [] then 0
    else
      var init, last := lines[..|lines| - 1], lines[|lines| - 1];
      Untagged(init, failing) + if IsFailing(last, failing) && !WipAbove(init) then 1 else 0
  }

  function PassCount(done: seq<string>, rest: seq<string>, failing: set<string>): nat
    decreases |rest|
  {
    if rest == [] then 0
    else
      (if IsFailing(rest[0], failing) && !WipAbove(done) then 1 else 0) +
      PassCount(Pass(done, rest[0], failing), rest[1..], failing)
  }

  class FeatureFile {
    var present: bool
    var lines: seq<string>

    constructor (present: bool, lines: seq<string>)
      ensures this.present == present && this.lines == lines
    {
      this.present, this.lines := present, lines;
    }

    /** The scan back over blank lines. */
    method TagLineAbove(text: seq<string>, i: nat) returns (tagLine: Option<nat>)
      requires i < |text|
      ensures tagLine == var j := LastText(text[..i]); if j.Some? && IsTag(text[..i][j.value]) then j else None
    {
      hide IsBlank, IsTag;
      LastTextFacts(text[..i]);
      var j: int := i - 1;
      while j >= 0 && IsBlank(text[j])
        invariant -1 <= j < i && LastText(text[..i]) == LastText(text[..j + 1])
      {
        assert text[..j + 1][..j] == text[..j];
        j := j - 1;
      }
      tagLine := if j >= 0 && IsTag(text[j]) then Some(j) else None;
    }

    /** One failing scenario, at line i; the position after it. */
    method TagScenario(text: seq<string>, i: nat, failing: set<string>)
      returns (edited: seq<string>, next: nat, tagged: nat)
      requires i < |text| && IsFailing(text[i], failing)
      ensures i < next <= |edited| && |edited| - next == |text| - (i + 1)
      ensures edited[..next] == Pass(text[..i], text[i], failing) && edited[next..] == text[i + 1..]
      ensures tagged == (if WipAbove(text[..i]) then 0 else 1) && (tagged == 0 ==> edited == text)
    {
      hide IsFailing, IsBlank, IsTag, HasWip, Extended, NewTag, LastText;
      edited, next, tagged := text, i + 1, 0;
      ghost var done := text[..i];
      var tagLine := TagLineAbove(text, i);
      if tagLine.Some? {
        var j := tagLine.value;
        if !HasWip(text[j]) {
          edited := text[j := Extended(text[j])];
          tagged := 1;
          assert edited[..next] == done[j := Extended(done[j])] + [text[i]];
        } else {
          assert edited[..next] == done + [text[i]];
        }
      } else {
        edited := text[..i] + [NewTag(text[i])] + text[i..];
        tagged := 1;
        next := next + 1;
        assert edited[..next] == done + [NewTag(text[i]), text[i]];
      }
    }

    method TagFeatureFile(failing: set<string>) returns (tagged: nat)
      modifies this
      ensures present == old(present)
      ensures !present ==> tagged == 0 && lines == old(lines)
      ensures present ==> lines == PassAll([], old(lines), failing) && tagged == PassCount([], old(lines), failing)
    {
      hide IsFailing, WipAbove, Pass;
      tagged := 0;
      if !present { return; }
      var text, changed := lines, false;
      var i := 0;
      while i < |text|
        invariant i <= |text| && present && lines == old(lines)
        invariant PassAll([], lines, failing) == PassAll(text[..i], text[i..], failing)
        invariant PassCount([], lines, failing) == tagged + PassCount(text[..i], text[i..], failing)
        invariant !changed ==> text == lines
        decreases |text| - i
      {
        assert text[i..][0] == text[i] && text[i..][1..] == text[i + 1..];
        if !IsFailing(text[i], failing) {
          PlainLine(text, i, failing);
          i := i + 1;
          continue;
        }
        var more;
        text, i, more := TagScenario(text, i, failing);
        changed := changed || more > 0;
        tagged := tagged + more;
      }
      assert text[..i] == text;
      if changed { lines := text; }
    }
  }

  lemma PlainLine(text: seq<string>, i: nat, failing: set<string>)
    requires i < |text| && !IsFailing(text[i], failing)
    ensures text[..i + 1] == Pass(text[..i], text[i], failing)
  {
  }
}
