/** Comparing and grading firewall rules: compareSecurityRules and isHighRiskRule in internal/cloud/compare.go. */
module SecurityRules {
  import opened Text
  import opened CloudTypes

  function Normalize(rule: SecurityRule): string {
    ToLower(TrimSpace(rule.direction) + "|" + TrimSpace(rule.protocol) + "|" +
            TrimSpace(rule.portRange) + "|" + TrimSpace(rule.remoteIP))
  }

  predicate IsHighRisk(rule: SecurityRule) {
    var remote := TrimSpace(rule.remoteIP);
    && EqualFold(rule.direction, "ingress")
    && (remote == "0.0.0.0/0" || remote == "::/0")
    && CoversApiPort(TrimSpace(rule.portRange))
  }

  /** The port part of isHighRiskRule. */
  predicate CoversApiPort(portRange: string) {
    if portRange == "" || portRange == "*" then true
    else if '-' in portRange then
      var k := IndexOf('-', portRange);
      IndexOfBounds('-', portRange);
      var low, high := Atoi(portRange[..k]), Atoi(portRange[k + 1..]);
      low.Some? && high.Some? && low.value <= 6443 <= high.value
    else Atoi(portRange) == Some(6443)
  }

  lemma {:induction false} IndexOfBounds(sep: char, s: string)
    ensures IndexOf(sep, s) <= |s|
    ensures sep in s ==> IndexOf(sep, s) < |s|
  {
    if s != "" && s[0] != sep {
      assert s == [s[0]] + s[1..];
      IndexOfBounds(sep, s[1..]);
    }
  }

  ghost predicate Contains(rules: seq<SecurityRule>, rule: SecurityRule) {
    exists r :: r in rules && Normalize(r) == Normalize(rule)
  }

  /** The desired rules with no counterpart, in order. */
  ghost function Missing(desired: seq<SecurityRule>, actual: seq<SecurityRule>): seq<SecurityRule> {
    if desired == [] then []
    else
      var n := |desired| - 1;
      Missing(desired[..n], actual) + if Contains(actual, desired[n]) then [] else [desired[n]]
  }

  /** The high-risk actual rules nobody asked for, in order. */
  ghost function RiskyExtra(desired: seq<SecurityRule>, actual: seq<SecurityRule>): seq<SecurityRule> {
    if actual == [] then []
    else
      var n := |actual| - 1;
      RiskyExtra(desired, actual[..n]) +
      if Contains(desired, actual[n]) || !IsHighRisk(actual[n]) then [] else [actual[n]]
  }

  method NormalizedSet(rules: seq<SecurityRule>) returns (keys: set<string>)
    ensures forall rule :: Normalize(rule) in keys <==> Contains(rules, rule)
  {
    hide Normalize;
    keys := {};
    for i := 0 to |rules|
      invariant forall key :: key in keys <==> exists j :: 0 <= j < i && Normalize(rules[j]) == key
    {
      keys := keys + {Normalize(rules[i])};
    }
  }

  method CompareSecurityRules(desired: seq<SecurityRule>, actual: seq<SecurityRule>)
    returns (missing: seq<SecurityRule>, riskyExtra: seq<SecurityRule>)
    ensures missing == Missing(desired, actual) && riskyExtra == RiskyExtra(desired, actual)
  {
    hide Normalize, IsHighRisk, Contains;
    var actualSet := NormalizedSet(actual);
    missing := [];
    for i := 0 to |desired|
      invariant missing == Missing(desired[..i], actual)
    {
      assert desired[..i + 1][..i] == desired[..i];
      if Normalize(desired[i]) !in actualSet { missing := missing + [desired[i]]; }
    }
    assert desired[..|desired|] == desired;
    var desiredSet := NormalizedSet(desired);
    riskyExtra := [];
    for i := 0 to |actual|
      invariant riskyExtra == RiskyExtra(desired, actual[..i])
    {
      assert actual[..i + 1][..i] == actual[..i];
      if Normalize(actual[i]) !in desiredSet && IsHighRisk(actual[i]) { riskyExtra := riskyExtra + [actual[i]]; }
    }
    assert actual[..|actual|] == actual;
  }

  method HasHighRiskRules(rules: seq<SecurityRule>) returns (b: bool)
    ensures b <==> exists rule :: rule in rules && IsHighRisk(rule)
  {
    hide IsHighRisk;
    for i := 0 to |rules|
      invariant forall j :: 0 <= j < i ==> !IsHighRisk(rules[j])
    {
      if IsHighRisk(rules[i]) { return true; }
    }
    return false;
  }

  lemma {:induction false} MissingMembers(desired: seq<SecurityRule>, actual: seq<SecurityRule>, rule: SecurityRule)
    ensures rule in Missing(desired, actual) <==> rule in desired && !Contains(actual, rule)
  {
    hide Contains;
    if desired != [] {
      var n := |desired| - 1;
      assert desired == desired[..n] + [desired[n]];
      MissingMembers(desired[..n], actual, rule);
    }
  }

  lemma {:induction false} RiskyExtraMembers(desired: seq<SecurityRule>, actual: seq<SecurityRule>, rule: SecurityRule)
    ensures rule in RiskyExtra(desired, actual) <==> rule in actual && !Contains(desired, rule) && IsHighRisk(rule)
  {
    hide Contains, IsHighRisk;
    if actual != [] {
      var n := |actual| - 1;
      assert actual == actual[..n] + [actual[n]];
      RiskyExtraMembers(desired, actual[..n], rule);
    }
  }

  // ---------------------------------------------------------------- what the grading means

  datatype Ports = AllPorts | OnePort(n: nat) | Between(low: nat, high: nat) {
    predicate Has(port: nat) {
      match this
      case AllPorts => true
      case OnePort(n) => port == n
      case Between(low, high) => low <= port <= high
    }

    predicate Fits() {
      match this
      case AllPorts => true
      case OnePort(n) => n < 0x8000_0000_0000_0000
      case Between(low, high) => low < 0x8000_0000_0000_0000 && high < 0x8000_0000_0000_0000
    }
  }

  /** The text is a decimal spelling of the number. */
  predicate Spells(text: string, n: nat) {
    text != "" && (forall k :: 0 <= k < |text| ==> IsDigit(text[k])) && DigitsValue(text) == n
  }

  /** How a port range is written: nothing or a star for all ports, a number, or two numbers and a dash. */
  ghost predicate Denotes(text: string, ports: Ports) {
    match ports
    case AllPorts => text == "" || text == "*"
    case OnePort(n) => Spells(text, n)
    case Between(low, high) => exists a, b :: text == a + ("-" + b) && Spells(a, low) && Spells(b, high)
  }

  lemma AtoiSpelled(text: string, n: nat)
    requires Spells(text, n) && n < 0x8000_0000_0000_0000
    ensures Atoi(text) == Some(n) && '-' !in text && text != "*"
  {
    assert IsDigit(text[0]);
    forall k | 0 <= k < |text| ensures text[k] != '-' { assert IsDigit(text[k]); }
  }

  lemma DenotedPorts(text: string, ports: Ports)
    requires ports.Fits() && Denotes(text, ports)
    ensures CoversApiPort(text) <==> ports.Has(6443)
  {
    hide Atoi, Spells;
    match ports {
      case AllPorts =>
      case OnePort(n) => SpelledIsSome(text, n); AtoiSpelled(text, n);
      case Between(low, high) =>
        var a, b :| text == a + ("-" + b) && Spells(a, low) && Spells(b, high);
        AtoiSpelled(a, low);
        AtoiSpelled(b, high);
        SpelledIsSome(a, low);
        IndexOfPiece('-', a, "-" + b);
        assert text[|a|] == '-' && text[..|a|] == a && text[|a| + 1..] == b;
    }
  }

  lemma SpelledIsSome(text: string, n: nat)
    requires Spells(text, n)
    ensures text != ""
  {
  }

  /** How the OpenStack provider writes the port limits of a rule; two zeros are no limit. */
  function PortRange(minPort: nat, maxPort: nat): string {
    if minPort == 0 && maxPort == 0 then ""
    else if minPort == maxPort then Decimal(minPort)
    else Decimal(minPort) + "-" + Decimal(maxPort)
  }

  function PortsOf(minPort: nat, maxPort: nat): Ports {
    if minPort == 0 && maxPort == 0 then AllPorts
    else if minPort == maxPort then OnePort(minPort)
    else Between(minPort, maxPort)
  }

  /** Everything the provider writes is well formed and read as it was meant. */
  lemma ProviderRangesAreDenoted(minPort: nat, maxPort: nat)
    ensures Denotes(PortRange(minPort, maxPort), PortsOf(minPort, maxPort))
  {
    DigitsOfDecimal(minPort);
    DigitsOfDecimal(maxPort);
    var a, b := Decimal(minPort), Decimal(maxPort);
    assert Spells(a, minPort) && Spells(b, maxPort);
    assert a + "-" + b == a + ("-" + b);
  }

  /** For a well-formed port range, high risk is ingress from anywhere that lets port 6443 in. */
  lemma HighRiskMeansOpenApiPort(rule: SecurityRule, ports: Ports)
    requires ports.Fits() && Denotes(TrimSpace(rule.portRange), ports)
    ensures IsHighRisk(rule) <==>
      EqualFold(rule.direction, "ingress")
      && (TrimSpace(rule.remoteIP) == "0.0.0.0/0" || TrimSpace(rule.remoteIP) == "::/0")
      && ports.Has(6443)
  {
    DenotedPorts(TrimSpace(rule.portRange), ports);
  }

  /** A rule as the provider lists it is high risk if its limits, two zeros being none, let port 6443 in. */
  lemma ProviderRulesAreGraded(rule: SecurityRule, minPort: nat, maxPort: nat)
    requires rule.portRange == PortRange(minPort, maxPort) && minPort < 0x1_0000 && maxPort < 0x1_0000
    ensures IsHighRisk(rule) <==>
      EqualFold(rule.direction, "ingress")
      && (TrimSpace(rule.remoteIP) == "0.0.0.0/0" || TrimSpace(rule.remoteIP) == "::/0")
      && ((minPort == 0 && maxPort == 0) || minPort <= 6443 <= maxPort)
  {
    hide IsHighRisk, EqualFold, Denotes, TrimSpace;
    ProviderRangesAreDenoted(minPort, maxPort);
    PrintedIsTrimmed(minPort, maxPort);
    HighRiskMeansOpenApiPort(rule, PortsOf(minPort, maxPort));
  }

  lemma PrintedIsTrimmed(minPort: nat, maxPort: nat)
    ensures TrimSpace(PortRange(minPort, maxPort)) == PortRange(minPort, maxPort)
  {
    hide TrimSpace;
    var a, b, s := Decimal(minPort), Decimal(maxPort), PortRange(minPort, maxPort);
    assert IsDigit(a[0]) && IsDigit(a[|a| - 1]) && IsDigit(b[|b| - 1]);
    if s == "" { BlankTrimsToNothing(s); } else { DigitsAreTrimmed(s); }
  }

  lemma DigitsAreTrimmed(s: string)
    requires s != "" && IsDigit(s[0]) && IsDigit(s[|s| - 1])
    ensures TrimSpace(s) == s
  {
    assert !IsSpace(s[0]) && !IsSpace(s[|s| - 1]);
  }

  function Field(s: string): string {
    ToLower(TrimSpace(s))
  }

  lemma LowerAfterBar(s: string, t: string)
    ensures ToLower(s + ("|" + t)) == ToLower(s) + ("|" + ToLower(t))
  {
  }

  lemma NormalizeParts(rule: SecurityRule)
    ensures Normalize(rule) ==
            Field(rule.direction) +
              ("|" + (Field(rule.protocol) + ("|" + (Field(rule.portRange) + ("|" + Field(rule.remoteIP))))))
  {
    hide TrimSpace, ToLower;
    var d, p, r, i := TrimSpace(rule.direction), TrimSpace(rule.protocol), TrimSpace(rule.portRange),
      TrimSpace(rule.remoteIP);
    assert d + "|" + p + "|" + r + "|" + i == d + ("|" + (p + ("|" + (r + ("|" + i)))));
    LowerAfterBar(d, p + ("|" + (r + ("|" + i))));
    LowerAfterBar(p, r + ("|" + i));
    LowerAfterBar(r, i);
  }

  predicate FieldsAgree(a: SecurityRule, b: SecurityRule) {
    && Field(a.direction) == Field(b.direction) && Field(a.protocol) == Field(b.protocol)
    && Field(a.portRange) == Field(b.portRange) && Field(a.remoteIP) == Field(b.remoteIP)
  }

  /** The separators inside the fields, of which there are none in a real rule, are equally many. */
  predicate SameBars(a: SecurityRule, b: SecurityRule) {
    && CountOf('|', Field(a.direction)) == CountOf('|', Field(b.direction))
    && CountOf('|', Field(a.protocol)) == CountOf('|', Field(b.protocol))
    && CountOf('|', Field(a.portRange)) == CountOf('|', Field(b.portRange))
  }

  /** Normalizing identifies exactly the rules that agree field by field, up to white space, case and stray bars. */
  lemma NormalizeComparesFields(a: SecurityRule, b: SecurityRule)
    ensures FieldsAgree(a, b) <==> Normalize(a) == Normalize(b) && SameBars(a, b)
  {
    NormalizeParts(a);
    NormalizeParts(b);
    hide Field, Normalize, CountOf;
    if Normalize(a) == Normalize(b) && SameBars(a, b) {
      var s, t := Field(a.portRange) + ("|" + Field(a.remoteIP)), Field(b.portRange) + ("|" + Field(b.remoteIP));
      NextPiece('|', Field(a.direction), Field(a.protocol) + ("|" + s), Field(b.direction),
                Field(b.protocol) + ("|" + t));
      NextPiece('|', Field(a.protocol), s, Field(b.protocol), t);
      NextPiece('|', Field(a.portRange), Field(a.remoteIP), Field(b.portRange), Field(b.remoteIP));
    }
  }

  predicate BarFree(rule: SecurityRule) {
    '|' !in rule.direction && '|' !in rule.protocol && '|' !in rule.portRange
  }

  lemma NoBarInField(s: string)
    requires '|' !in s
    ensures CountOf('|', Field(s)) == 0
  {
    hide TrimSpace;
    var trimmed, t := TrimSpace(s), Field(s);
    TrimIsInside(s);
    forall k | 0 <= k < |t| ensures t[k] != '|' {
      assert t[k] == LowerChar(trimmed[k]) && trimmed[k] in trimmed;
    }
    CountOfNone('|', t);
  }

  /** Without bars in them, as rules are, normalizing compares the fields and nothing else. */
  lemma BarFreeRulesCompareByFields(a: SecurityRule, b: SecurityRule)
    requires BarFree(a) && BarFree(b)
    ensures Normalize(a) == Normalize(b) <==> FieldsAgree(a, b)
  {
    hide Normalize, Field;
    NoBarInField(a.direction); NoBarInField(a.protocol); NoBarInField(a.portRange);
    NoBarInField(b.direction); NoBarInField(b.protocol); NoBarInField(b.portRange);
    NormalizeComparesFields(a, b);
  }
}
