/**
 * Pointing a kubeconfig at the VIP: replaceLocalhostInKubeconfig in internal/cluster/bootstrap_provider_infra.go.
 * Six passes of strings.ReplaceAll are shown to be one simultaneous replacement.
 */
module Kubeconfig {
  import opened Text

  datatype Rule = Rule(from: string, to: string)

  /** strings.ReplaceAll, for a non-empty text. */
  function ReplaceAll(s: string, rule: Rule): string
    requires rule.from != ""
    decreases |s|
  {
    if s == "" then ""
    else if rule.from <= s then rule.to + ReplaceAll(s[|rule.from|..], rule)
    else [s[0]] + ReplaceAll(s[1..], rule)
  }

  /** The first rule whose text starts s. */
  function Match(rules: seq<Rule>, s: string): (m: Option<Rule>)
    ensures m.Some? ==> m.value in rules && m.value.from <= s
    ensures m.None? ==> forall rule :: rule in rules ==> !(rule.from <= s)
  {
    if rules == [] then None
    else if rules[0].from <= s then Some(rules[0])
    else Match(rules[1..], s)
  }

  predicate NonEmpty(rules: seq<Rule>) {
    forall rule {:trigger rule in rules} :: rule in rules ==> rule.from != ""
  }

  /** Replace every text in one pass from left to right. */
  function OnePass(s: string, rules: seq<Rule>): string
    requires NonEmpty(rules)
    decreases |s|
  {
    if s == "" then ""
    else
      match Match(rules, s)
      case Some(rule) => rule.to + OnePass(s[|rule.from|..], rules)
      case None => [s[0]] + OnePass(s[1..], rules)
  }

  // ---------------------------------------------------------------- rules whose texts cannot interfere

  /** The text begins with "ht", and no other position of it could begin with "ht", whatever follows. */
  predicate Marked(s: string) {
    && |s| >= 2 && s[0] == 'h' && s[1] == 't'
    && forall j :: 1 <= j < |s| && s[j] == 'h' ==> j + 1 < |s| && s[j + 1] != 't'
  }

  /** The two texts differ at a common position, so neither starts a text that the other starts. */
  ghost predicate Apart(a: string, b: string) {
    exists i :: 0 <= i < |a| && i < |b| && a[i] != b[i]
  }

  predicate AllMarked(rules: seq<Rule>)
    ensures AllMarked(rules) ==> NonEmpty(rules)
  {
    forall rule {:trigger rule in rules} :: rule in rules ==> Marked(rule.from) && Marked(rule.to)
  }

  ghost predicate Independent(rules: seq<Rule>) {
    && AllMarked(rules)
    && (forall a, b :: a in rules && b in rules ==> Apart(a.from, b.to))
  }

  lemma ApartNeverStarts(a: string, b: string, t: string)
    requires Apart(a, b)
    ensures !(a <= b + t)
  {
  }

  /** Nothing marked starts inside a marked text. */
  lemma NothingStartsInside(from: string, block: string, j: nat, t: string)
    requires Marked(from) && Marked(block) && 1 <= j < |block|
    ensures !(from <= block[j..] + t)
  {
  }

  lemma InsideNeverStarts(from: string, m: nat, block: string, t: string)
    requires Marked(from) && Marked(block) && 1 <= m < |from|
    ensures !(from[m..] <= block + t)
  {
    var i := if from[m] == 'h' then 1 else 0;
    assert from[m..][i] != block[i];
    ApartNeverStarts(from[m..], block, t);
  }

  /** A pass of one rule goes over a block that it does not start in, copying it. */
  lemma {:induction false} PassOver(block: string, j: nat, t: string, rules: seq<Rule>)
    requires Marked(block) && 1 <= j <= |block|
    requires AllMarked(rules)
    ensures OnePass(block[j..] + t, rules) == block[j..] + OnePass(t, rules)
    decreases |block| - j
  {
    if j == |block| {
      assert block[j..] + t == t;
    } else {
      var s := block[j..] + t;
      var m := Match(rules, s);
      if m.Some? { NothingStartsInside(m.value.from, block, j, t); }
      assert s[1..] == block[j + 1..] + t;
      PassOver(block, j + 1, t, rules);
      assert block[j..] == [block[j]] + block[j + 1..];
    }
  }

  lemma PassOverWhole(block: string, t: string, rules: seq<Rule>)
    requires Marked(block) && AllMarked(rules)
    requires Match(rules, block + t).None?
    ensures OnePass(block + t, rules) == block + OnePass(t, rules)
  {
    var s := block + t;
    assert s[1..] == block[1..] + t;
    PassOver(block, 1, t, rules);
    assert block == [block[0]] + block[1..];
  }

  /** One rule on its own. */
  lemma {:induction false} ReplaceAllIsOnePass(s: string, rule: Rule)
    requires rule.from != ""
    ensures ReplaceAll(s, rule) == OnePass(s, [rule])
    decreases |s|
  {
    if s != "" {
      assert rule in [rule];
      if rule.from <= s {
        ReplaceAllIsOnePass(s[|rule.from|..], rule);
      } else {
        ReplaceAllIsOnePass(s[1..], rule);
      }
    }
  }

  /** After a pass, a text can start only where it started before. */
  lemma {:induction false} StartsSurvive(s: string, rules: seq<Rule>, from: string, m: nat)
    requires AllMarked(rules)
    requires Marked(from) && 1 <= m <= |from| && from[m..] <= OnePass(s, rules)
    ensures from[m..] <= s
    decreases |s|
  {
    if m < |from| && s != "" {
      var hit := Match(rules, s);
      var t := OnePass(s, rules);
      if hit.Some? {
        InsideNeverStarts(from, m, hit.value.to, OnePass(s[|hit.value.from|..], rules));
      } else {
        assert from[m..] == [from[m]] + from[m + 1..];
        assert t[1..] == OnePass(s[1..], rules) && from[m + 1..] <= t[1..];
        StartsSurvive(s[1..], rules, from, m + 1);
        assert s == [s[0]] + s[1..];
      }
    }
  }

  // ---------------------------------------------------------------- passes one after the other

  /** The first n rules, applied in turn. */
  function InTurn(s: string, rules: seq<Rule>, n: nat): string
    requires n <= |rules| && NonEmpty(rules)
  {
    if n == 0 then s
    else
      assert rules[n - 1] in rules;
      ReplaceAll(InTurn(s, rules, n - 1), rules[n - 1])
  }

  lemma {:induction false} OnePassOfNone(s: string)
    ensures OnePass(s, []) == s
  {
    if s != "" { OnePassOfNone(s[1..]); }
  }

  lemma {:induction false} MatchSnoc(rules: seq<Rule>, rule: Rule, s: string)
    ensures Match(rules + [rule], s) ==
            if Match(rules, s).Some? then Match(rules, s) else if rule.from <= s then Some(rule) else None
  {
    if rules == [] {
      assert rules + [rule] == [rule];
    } else {
      assert (rules + [rule])[1..] == rules[1..] + [rule];
      MatchSnoc(rules[1..], rule, s);
    }
  }

  /** Where a text does not start, copying one character does not make it start. */
  lemma StillNotThere(s: string, rules: seq<Rule>, from: string)
    requires AllMarked(rules) && Marked(from) && s != "" && !(from <= s)
    ensures !(from <= [s[0]] + OnePass(s[1..], rules))
  {
    var t := [s[0]] + OnePass(s[1..], rules);
    if from <= t {
      assert from[1..] <= t[1..] && from[0] == s[0];
      StartsSurvive(s[1..], rules, from, 1);
    }
  }

  /** One more pass extends the simultaneous replacement by its rule. */
  lemma {:induction false} OneMorePass(s: string, rules: seq<Rule>, rule: Rule)
    requires AllMarked(rules) && AllMarked([rule]) && AllMarked(rules + [rule])
    requires forall a :: a in rules ==> Apart(rule.from, a.to)
    ensures OnePass(OnePass(s, rules), [rule]) == OnePass(s, rules + [rule])
    decreases |s|
  {
    hide Marked, Apart;
    assert rule in [rule];
    if s != "" {
      MatchSnoc(rules, rule, s);
      var hit := Match(rules, s);
      if hit.Some? {
        var rest := s[|hit.value.from|..];
        var t := OnePass(rest, rules);
        ApartNeverStarts(rule.from, hit.value.to, t);
        PassOverWhole(hit.value.to, t, [rule]);
        OneMorePass(rest, rules, rule);
      } else if rule.from <= s {
        var rest := s[|rule.from|..];
        assert s == rule.from + rest;
        PassOverWhole(rule.from, rest, rules);
        var t := OnePass(rest, rules);
        assert (rule.from + t)[|rule.from|..] == t;
        OneMorePass(rest, rules, rule);
      } else {
        var t := OnePass(s[1..], rules);
        StillNotThere(s, rules, rule.from);
        assert ([s[0]] + t)[1..] == t;
        OneMorePass(s[1..], rules, rule);
      }
    }
  }

  /** Independent rules applied in turn are one simultaneous pass. */
  lemma {:induction false} InTurnIsOnePass(s: string, rules: seq<Rule>, n: nat)
    requires Independent(rules) && n <= |rules|
    ensures AllMarked(rules[..n]) && InTurn(s, rules, n) == OnePass(s, rules[..n])
  {
    hide Marked, Apart;
    if n == 0 {
      assert rules[..0] == [];
      OnePassOfNone(s);
    } else {
      assert rules[..n] == rules[..n - 1] + [rules[n - 1]] && rules[n - 1] in rules;
      InTurnIsOnePass(s, rules, n - 1);
      ReplaceAllIsOnePass(OnePass(s, rules[..n - 1]), rules[n - 1]);
      OneMorePass(s, rules[..n - 1], rules[n - 1]);
    }
  }

  // ---------------------------------------------------------------- what one pass leaves

  ghost predicate Clean(rules: seq<Rule>, s: string) {
    forall rule, k :: rule in rules && 0 <= k <= |s| ==> !(rule.from <= s[k..])
  }

  lemma {:induction false} OnePassIsClean(s: string, rules: seq<Rule>, rule: Rule, k: nat)
    requires Independent(rules) && rule in rules && k <= |OnePass(s, rules)|
    ensures !(rule.from <= OnePass(s, rules)[k..])
    decreases |s|
  {
    if s != "" {
      var t := OnePass(s, rules);
      var hit := Match(rules, s);
      if hit.Some? {
        var to, rest := hit.value.to, s[|hit.value.from|..];
        var u := OnePass(rest, rules);
        if k == 0 {
          ApartNeverStarts(rule.from, to, u);
          assert t[0..] == t;
        } else if k < |to| {
          NothingStartsInside(rule.from, to, k, u);
          assert t[k..] == to[k..] + u;
        } else {
          OnePassIsClean(rest, rules, rule, k - |to|);
          assert t[k..] == u[k - |to|..];
        }
      } else if k == 0 {
        StillNotThere(s, rules, rule.from);
        assert t[0..] == t;
      } else {
        OnePassIsClean(s[1..], rules, rule, k - 1);
        assert t[k..] == OnePass(s[1..], rules)[k - 1..];
      }
    }
  }

  lemma {:induction false} CleanIsUnchanged(s: string, rules: seq<Rule>)
    requires NonEmpty(rules) && Clean(rules, s)
    ensures OnePass(s, rules) == s
  {
    if s != "" {
      assert s[0..] == s;
      forall rule, k | rule in rules && 0 <= k <= |s[1..]| ensures !(rule.from <= s[1..][k..]) {
        assert s[1..][k..] == s[k + 1..];
      }
      CleanIsUnchanged(s[1..], rules);
    }
  }

  // ---------------------------------------------------------------- the localhost rules

  const HOSTS := ["127.0.0.1", "localhost", "[::1]"]

  function Url(scheme: string, host: string): (url: string)
    ensures url != ""
  {
    scheme + "://" + host + ":"
  }

  function LocalRule(scheme: string, host: string, ip: string): Rule { Rule(Url(scheme, host), Url(scheme, ip)) }

  function LocalRules(ip: string): (rules: seq<Rule>)
    ensures NonEmpty(rules)
  {
    [LocalRule("https", HOSTS[0], ip), LocalRule("http", HOSTS[0], ip),
     LocalRule("https", HOSTS[1], ip), LocalRule("http", HOSTS[1], ip),
     LocalRule("https", HOSTS[2], ip), LocalRule("http", HOSTS[2], ip)]
  }

  method ReplaceLocalhostInKubeconfig(data: string, ip: string) returns (result: string)
    ensures Blank(ip) ==> result == data
    ensures !Blank(ip) ==> result == InTurn(data, LocalRules(ip), 6)
  {
    hide ReplaceAll, TrimSpace, Blank, Url, NonEmpty;
    BlankTrimsToNothing(ip);
    if TrimSpace(ip) == "" { return data; }
    result := data;
    for i := 0 to |HOSTS|
      invariant result == InTurn(data, LocalRules(ip), 2 * i)
    {
      result := ReplaceAll(result, LocalRule("https", HOSTS[i], ip));
      result := ReplaceAll(result, LocalRule("http", HOSTS[i], ip));
    }
  }

  /** No "ht" in the address, and it neither starts a localhost name nor is started by one. */
  ghost predicate Distinguishable(ip: string) {
    && (forall j :: 0 <= j < |ip| - 1 && ip[j] == 'h' ==> ip[j + 1] != 't')
    && (forall i :: 0 <= i < |HOSTS| ==> Apart(HOSTS[i] + ":", ip + ":"))
  }

  predicate Scheme(scheme: string) { scheme == "https" || scheme == "http" }

  lemma UrlMarked(scheme: string, host: string)
    requires Scheme(scheme) && forall j :: 0 <= j < |host| - 1 && host[j] == 'h' ==> host[j + 1] != 't'
    ensures Marked(Url(scheme, host))
  {
  }

  lemma UrlsApart(a: string, host: string, b: string, ip: string)
    requires Scheme(a) && Scheme(b) && Apart(host + ":", ip + ":")
    ensures Apart(Url(a, host), Url(b, ip))
  {
    var s, t := Url(a, host), Url(b, ip);
    if a == b {
      var i :| 0 <= i < |host + ":"| && i < |ip + ":"| && (host + ":")[i] != (ip + ":")[i];
      assert s == (a + "://") + (host + ":") && t == (a + "://") + (ip + ":");
      assert s[|a| + 3 + i] == (host + ":")[i] && t[|a| + 3 + i] == (ip + ":")[i];
    } else {
      assert s[4] != t[4];
    }
  }

  lemma LocalRulesIndependent(ip: string)
    requires Distinguishable(ip)
    ensures Independent(LocalRules(ip))
  {
    hide Apart, Marked, Url;
    UrlMarked("https", ip); UrlMarked("http", ip);
    UrlMarked("https", HOSTS[0]); UrlMarked("http", HOSTS[0]);
    UrlMarked("https", HOSTS[1]); UrlMarked("http", HOSTS[1]);
    UrlMarked("https", HOSTS[2]); UrlMarked("http", HOSTS[2]);
    forall a, b | a in LocalRules(ip) && b in LocalRules(ip) ensures Apart(a.from, b.to) {
      var sa, i := RuleParts(ip, a);
      var sb, j := RuleParts(ip, b);
      UrlsApart(sa, HOSTS[i], sb, ip);
    }
  }

  lemma RuleParts(ip: string, rule: Rule) returns (scheme: string, i: nat)
    requires rule in LocalRules(ip)
    ensures Scheme(scheme) && i < |HOSTS| && rule == LocalRule(scheme, HOSTS[i], ip)
  {
    hide Url;
    if rule == LocalRule("https", HOSTS[0], ip) { return "https", 0; }
    if rule == LocalRule("http", HOSTS[0], ip) { return "http", 0; }
    if rule == LocalRule("https", HOSTS[1], ip) { return "https", 1; }
    if rule == LocalRule("http", HOSTS[1], ip) { return "http", 1; }
    if rule == LocalRule("https", HOSTS[2], ip) { return "https", 2; }
    return "http", 2;
  }

  /**
   * For a distinguishable address the six passes are one simultaneous replacement: none of the six
   * localhost URLs is left, a second rewrite changes nothing, and only those URLs were touched.
   */
  lemma RewriteIsOneCleanPass(data: string, ip: string)
    requires Distinguishable(ip)
    ensures var rules := LocalRules(ip); var result := InTurn(data, rules, 6);
      && result == OnePass(data, rules)
      && Clean(rules, result)
      && InTurn(result, rules, 6) == result
  {
    hide Apart, Marked, Url;
    LocalRulesIndependent(ip);
    var rules := LocalRules(ip);
    assert rules[..6] == rules;
    InTurnIsOnePass(data, rules, 6);
    var result := OnePass(data, rules);
    forall rule, k | rule in rules && 0 <= k <= |result| ensures !(rule.from <= result[k..]) {
      OnePassIsClean(data, rules, rule, k);
    }
    InTurnIsOnePass(result, rules, 6);
    CleanIsUnchanged(result, rules);
  }

  // ---------------------------------------------------------------- what becomes of every localhost URL

  /** A marked text behind a is not begun inside a. */
  lemma {:induction false} MatchBefore(a: string, url: string, b: string, rules: seq<Rule>)
    requires AllMarked(rules) && Marked(url) && a != ""
    ensures Match(rules, a + (url + b)) == Match(rules, a)
  {
    hide Marked;
    if rules != [] {
      var rule := rules[0];
      assert rule in rules;
      forall r | r in rules[1..] ensures r in rules {}
      MatchBefore(a, url, b, rules[1..]);
      BegunBefore(a, url, b, rule.from);
    }
  }

  lemma BegunBefore(a: string, url: string, b: string, from: string)
    requires Marked(from) && Marked(url) && a != ""
    ensures from <= a + (url + b) <==> from <= a
  {
    var s := a + (url + b);
    assert s[|a|] == 'h' && s[|a| + 1] == 't';
  }

  /** A pass treats what is before a marked text, the text, and what is behind it on their own. */
  lemma {:induction false} PassSplits(a: string, rule: Rule, b: string, rules: seq<Rule>)
    requires AllMarked(rules) && Marked(rule.from) && Match(rules, rule.from + b) == Some(rule)
    ensures OnePass(a + (rule.from + b), rules) == OnePass(a, rules) + (rule.to + OnePass(b, rules))
    decreases |a|
  {
    hide Marked;
    var url := rule.from;
    var s := a + (url + b);
    if a == "" {
      assert s == url + b && s[|url|..] == b;
    } else {
      MatchBefore(a, url, b, rules);
      var hit := Match(rules, a);
      if hit.Some? {
        var rest := a[|hit.value.from|..];
        assert s[|hit.value.from|..] == rest + (url + b);
        PassSplits(rest, rule, b, rules);
      } else {
        assert s[1..] == a[1..] + (url + b);
        PassSplits(a[1..], rule, b, rules);
      }
    }
  }

  lemma {:induction false} MatchIsOnly(rules: seq<Rule>, rule: Rule, s: string)
    requires rule in rules && rule.from <= s && forall r :: r in rules && r != rule ==> !(r.from <= s)
    ensures Match(rules, s) == Some(rule)
  {
    if rules[0] != rule {
      assert rules[0] in rules;
      MatchIsOnly(rules[1..], rule, s);
    }
  }

  lemma DifferentStarts(a: string, b: string, i: nat, t: string)
    requires i < |a| && i < |b| && a[i] != b[i]
    ensures !(a <= b + t)
  {
  }

  lemma UrlShape(scheme: string, host: string)
    requires Scheme(scheme) && host != ""
    ensures |Url(scheme, host)| > |scheme| + 3 && Url(scheme, host)[|scheme| + 3] == host[0]
    ensures |scheme| >= 4 && Url(scheme, host)[4] == if scheme == "https" then 's' else ':'
  {
  }

  /** The six URLs differ early on, so no two of them start the same text. */
  lemma OnlyOneStarts(ip: string, rule: Rule, other: Rule, t: string)
    requires rule in LocalRules(ip) && other in LocalRules(ip) && other != rule
    ensures !(other.from <= rule.from + t)
  {
    var a, i := RuleParts(ip, rule);
    var b, j := RuleParts(ip, other);
    hide Url, LocalRules;
    UrlShape(a, HOSTS[i]);
    UrlShape(b, HOSTS[j]);
    if a != b {
      DifferentStarts(other.from, rule.from, 4, t);
    } else {
      assert HOSTS[i][0] != HOSTS[j][0];
      DifferentStarts(other.from, rule.from, |a| + 3, t);
    }
  }

  /** Wherever one of the six URLs stands, the VIP takes the place of its host, and the text around is treated alone. */
  lemma EveryLocalUrlPointsToTheVip(a: string, scheme: string, host: string, b: string, ip: string)
    requires Distinguishable(ip)
    requires scheme == "https" || scheme == "http"
    requires host == "127.0.0.1" || host == "localhost" || host == "[::1]"
    ensures var rewrite := (s: string) => InTurn(s, LocalRules(ip), 6);
      rewrite(a + ((scheme + "://" + host + ":") + b)) == rewrite(a) + ((scheme + "://" + ip + ":") + rewrite(b))
  {
    hide Marked, Apart, InTurn, OnePass, Distinguishable, Url;
    var rules, rule := LocalRules(ip), LocalRule(scheme, host, ip);
    IsLocalRule(scheme, host, ip);
    LocalRulesIndependent(ip);
    forall other | other in rules && other != rule ensures !(other.from <= rule.from + b) {
      OnlyOneStarts(ip, rule, other, b);
    }
    MatchIsOnly(rules, rule, rule.from + b);
    PassSplits(a, rule, b, rules);
    RewriteIsOneCleanPass(a, ip);
    RewriteIsOneCleanPass(b, ip);
    RewriteIsOneCleanPass(a + (rule.from + b), ip);
  }

  lemma IsLocalRule(scheme: string, host: string, ip: string)
    requires (scheme == "https" || scheme == "http") && (host == "127.0.0.1" || host == "localhost" || host == "[::1]")
    ensures var rule := LocalRule(scheme, host, ip);
      && rule in LocalRules(ip) && rule.from == scheme + "://" + host + ":" && rule.to == scheme + "://" + ip + ":"
  {
    var i := if host == "127.0.0.1" then 0 else if host == "localhost" then 1 else 2;
    assert HOSTS[i] == host;
    assert LocalRules(ip)[if scheme == "https" then 2 * i else 2 * i + 1] == LocalRule(scheme, host, ip);
  }

  predicate Without(data: string, url: string) {
    forall k :: 0 <= k <= |data| ==> !(url <= data[k..])
  }

  /** Any address leaves a text without such URLs as it is. */
  lemma OtherTextIsUntouched(data: string, ip: string)
    requires Without(data, "https://127.0.0.1:") && Without(data, "http://127.0.0.1:")
    requires Without(data, "https://localhost:") && Without(data, "http://localhost:")
    requires Without(data, "https://[::1]:") && Without(data, "http://[::1]:")
    ensures InTurn(data, LocalRules(ip), 6) == data
  {
    hide ReplaceAll, Without;
    SixUrls(ip);
    hide Url, LocalRules;
    var rules := LocalRules(ip);
    NothingToReplace(data, rules[0]); NothingToReplace(data, rules[1]); NothingToReplace(data, rules[2]);
    NothingToReplace(data, rules[3]); NothingToReplace(data, rules[4]); NothingToReplace(data, rules[5]);
    AllLeave(data, rules, 6);
  }

  lemma SixUrls(ip: string)
    ensures var rules := LocalRules(ip);
      && |rules| == 6 && rules[0].from == "https://127.0.0.1:" && rules[1].from == "http://127.0.0.1:"
      && rules[2].from == "https://localhost:" && rules[3].from == "http://localhost:"
      && rules[4].from == "https://[::1]:" && rules[5].from == "http://[::1]:"
  {
    hide Url;
    TwoUrls("127.0.0.1");
    TwoUrls("localhost");
    TwoUrls("[::1]");
    assert "https://" + "127.0.0.1" + ":" == "https://127.0.0.1:";
    assert "http://" + "127.0.0.1" + ":" == "http://127.0.0.1:";
    assert "https://" + "localhost" + ":" == "https://localhost:";
    assert "http://" + "localhost" + ":" == "http://localhost:";
    assert "https://" + "[::1]" + ":" == "https://[::1]:" && "http://" + "[::1]" + ":" == "http://[::1]:";
  }

  lemma TwoUrls(host: string)
    ensures Url("https", host) == "https://" + host + ":" && Url("http", host) == "http://" + host + ":"
  {
    assert "https" + "://" == "https://" && "http" + "://" == "http://";
  }

  lemma {:induction false} NothingToReplace(s: string, rule: Rule)
    requires rule.from != "" && Without(s, rule.from)
    ensures ReplaceAll(s, rule) == s
    decreases |s|
  {
    if s != "" {
      assert s[0..] == s;
      forall k | 0 <= k <= |s[1..]| ensures !(rule.from <= s[1..][k..]) { assert s[1..][k..] == s[k + 1..]; }
      assert Without(s[1..], rule.from);
      NothingToReplace(s[1..], rule);
      assert s == [s[0]] + s[1..];
    }
  }

  // ---------------------------------------------------------------- dotted addresses

  predicate Dotted(ip: string) {
    forall i :: 0 <= i < |ip| ==> IsDigit(ip[i]) || ip[i] == '.'
  }

  /** Four numbers with dots between them are such an address. */
  lemma FourNumbersAreDotted(a: nat, b: nat, c: nat, d: nat)
    ensures Dotted(Decimal(a) + "." + Decimal(b) + "." + Decimal(c) + "." + Decimal(d))
  {
    hide Decimal;
  }

  lemma {:induction false} DifferentOrPrefix(a: string, b: string)
    requires a != b && (forall i :: 0 <= i < |a| ==> a[i] != ':') && (forall i :: 0 <= i < |b| ==> b[i] != ':')
    ensures Apart(a + ":", b + ":")
  {
    if a == "" {
      assert (a + ":")[0] != (b + ":")[0];
    } else if b == "" || a[0] != b[0] {
      assert (a + ":")[0] != (b + ":")[0];
    } else {
      assert a == [a[0]] + a[1..] && b == [b[0]] + b[1..];
      DifferentOrPrefix(a[1..], b[1..]);
      var i :| 0 <= i < |a[1..] + ":"| && i < |b[1..] + ":"| && (a[1..] + ":")[i] != (b[1..] + ":")[i];
      assert (a + ":")[i + 1] == (a[1..] + ":")[i] && (b + ":")[i + 1] == (b[1..] + ":")[i];
    }
  }

  lemma DottedIsDistinguishable(ip: string)
    requires Dotted(ip) && ip != "" && ip != "127.0.0.1"
    ensures Distinguishable(ip)
  {
    DifferentOrPrefix(HOSTS[0], ip);
    assert (HOSTS[1] + ":")[0] != (ip + ":")[0];
    assert (HOSTS[2] + ":")[0] != (ip + ":")[0];
  }

  lemma {:induction false} SameTextIsUnchanged(s: string, rule: Rule)
    requires rule.from == rule.to != ""
    ensures ReplaceAll(s, rule) == s
    decreases |s|
  {
    if s != "" {
      if rule.from <= s {
        SameTextIsUnchanged(s[|rule.from|..], rule);
        assert s == rule.from + s[|rule.from|..];
      } else {
        SameTextIsUnchanged(s[1..], rule);
        assert s == [s[0]] + s[1..];
      }
    }
  }

  lemma OtherHostUnchanged(scheme: string, host: string)
    requires Scheme(scheme) && (host == HOSTS[1] || host == HOSTS[2])
    ensures ReplaceAll(Url("https", HOSTS[0]), LocalRule(scheme, host, HOSTS[0])) == Url("https", HOSTS[0])
  {
    hide Url;
    var s, rule := Url("https", HOSTS[0]), LocalRule(scheme, host, HOSTS[0]);
    UrlMarked("https", HOSTS[0]); UrlMarked(scheme, host); UrlMarked(scheme, HOSTS[0]);
    assert (host + ":")[0] != (HOSTS[0] + ":")[0];
    UrlsApart(scheme, host, "https", HOSTS[0]);
    ApartNeverStarts(rule.from, s, "");
    assert rule in [rule] && s + "" == s;
    PassOverWhole(s, "", [rule]);
    ReplaceAllIsOnePass(s, rule);
  }

  lemma {:induction false} AllLeave(s: string, rules: seq<Rule>, n: nat)
    requires NonEmpty(rules) && n <= |rules|
    requires forall i :: 0 <= i < n ==> rules[i].from != "" && ReplaceAll(s, rules[i]) == s
    ensures InTurn(s, rules, n) == s
  {
    hide ReplaceAll;
    if n > 0 { AllLeave(s, rules, n - 1); }
  }

  lemma LoopbackStays()
    ensures InTurn(Url("https", HOSTS[0]), LocalRules(HOSTS[0]), 6) == Url("https", HOSTS[0])
  {
    hide Url, ReplaceAll;
    var s, rules := Url("https", HOSTS[0]), LocalRules(HOSTS[0]);
    SameTextIsUnchanged(s, rules[0]);
    SameTextIsUnchanged(s, rules[1]);
    OtherHostUnchanged("https", HOSTS[1]);
    OtherHostUnchanged("http", HOSTS[1]);
    OtherHostUnchanged("https", HOSTS[2]);
    OtherHostUnchanged("http", HOSTS[2]);
    AllLeave(s, rules, 6);
  }

  /**
   * For addresses of digits and dots, every rewrite is free of localhost URLs exactly when the
   * address is not the loopback one.
   */
  lemma DottedRewritesCleanExactlyWhen(ip: string)
    requires Dotted(ip) && ip != ""
    ensures (forall data :: Clean(LocalRules(ip), InTurn(data, LocalRules(ip), 6))) <==> ip != "127.0.0.1"
  {
    if ip == "127.0.0.1" {
      LoopbackStays();
      var s := Url("https", HOSTS[0]);
      assert LocalRules(ip)[0] in LocalRules(ip) && s <= s[0..];
      assert !Clean(LocalRules(ip), InTurn(s, LocalRules(ip), 6));
    } else {
      DottedIsDistinguishable(ip);
      forall data ensures Clean(LocalRules(ip), InTurn(data, LocalRules(ip), 6)) { RewriteIsOneCleanPass(data, ip); }
    }
  }
}
