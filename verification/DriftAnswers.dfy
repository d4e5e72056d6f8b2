/** Exactly which items a drift report holds, with every key, field, condition and severity written out. */
module DriftAnswers {
  import opened Text
  import opened CloudTypes
  import opened StringSets
  import opened SecurityRules
  import opened DriftSpec

  // ---------------------------------------------------------------- resources under their keys

  /** The last resource of the list with this name. */
  ghost predicate Kept<T(!new)>(items: seq<T>, named: (T, string) -> bool, x: T, k: string) {
    exists i :: 0 <= i < |items| && items[i] == x && named(x, k) && forall j :: i < j < |items| ==> !named(items[j], k)
  }

  ghost predicate Absent<T(!new)>(items: seq<T>, named: (T, string) -> bool, k: string) {
    forall x :: x in items ==> !named(x, k)
  }

  /** What is due for the name of the item: a change of what both sides keep, or that one side has none. */
  ghost predicate Due<T(!new)>(desired: seq<T>, actual: seq<T>, named: (T, string) -> bool,
                               change: (T, T, DriftItem) -> bool, missing: (T, DriftItem) -> bool,
                               unexpected: (T, DriftItem) -> bool, item: DriftItem) {
    var k := item.name;
    || (exists d, a :: Kept(desired, named, d, k) && Kept(actual, named, a, k) && change(d, a, item))
    || (exists d :: Kept(desired, named, d, k) && Absent(actual, named, k) && missing(d, item))
    || (exists a :: Kept(actual, named, a, k) && Absent(desired, named, k) && unexpected(a, item))
  }

  /** The key functions name the resources. */
  ghost predicate Names<T(!new)>(key: T -> string, named: (T, string) -> bool) {
    forall x, k :: named(x, k) <==> k != "" && key(x) == k
  }

  lemma {:induction false} KeptIsMapped<T(!new)>(items: seq<T>, key: T -> string, named: (T, string) -> bool, k: string)
    requires Names(key, named)
    ensures k in ByKey(items, key) <==> !Absent(items, named, k)
    ensures forall x :: Kept(items, named, x, k) <==> k in ByKey(items, key) && ByKey(items, key)[k] == x
  {
    var m := ByKey(items, key);
    ByKeyIsLastWins(items, key, k);
    assert k in m <==> !Absent(items, named, k) by {
      if i :| 0 <= i < |items| && named(items[i], k) { assert items[i] in items && key(items[i]) == k; }
    }
    forall x | Kept(items, named, x, k) ensures k in m && m[k] == x {
      var i :| 0 <= i < |items| && items[i] == x && named(x, k) && forall j :: i < j < |items| ==> !named(items[j], k);
      assert LastAt(items, key, k, i);
    }
    if k in m {
      var i := LastNamed(items, named, k);
      assert LastAt(items, key, k, i);
      assert Kept(items, named, items[i], k);
    }
  }

  lemma {:induction false} LastNamed<T(!new)>(items: seq<T>, named: (T, string) -> bool, k: string) returns (i: nat)
    requires !Absent(items, named, k)
    ensures i < |items| && named(items[i], k) && forall j :: i < j < |items| ==> !named(items[j], k)
  {
    var n := |items| - 1;
    if named(items[n], k) { return n; }
    assert items == items[..n] + [items[n]];
    i := LastNamed(items[..n], named, k);
    assert forall j :: i < j < n ==> items[j] == items[..n][j];
  }

  /** An item that at most one key gives is in the sum as often as that key gives it. */
  lemma SumAtOne(keys: set<string>, at: string -> Items, key: string, item: DriftItem)
    requires forall k :: k in keys && k != key ==> at(k)[item] == 0
    ensures Sum(keys, at)[item] == if key in keys then at(key)[item] else 0
  {
    hide Sum;
    if key in keys {
      SumRemove(keys, at, key);
      SumHas(keys - {key}, at, item);
    } else {
      SumHas(keys, at, item);
    }
  }

  lemma KeyedReport<T(!new)>(desired: seq<T>, actual: seq<T>, key: T -> string, named: (T, string) -> bool,
                             change: (T, T, DriftItem) -> bool, missing: (T, DriftItem) -> bool,
                             unexpected: (T, DriftItem) -> bool, at: string -> Items, item: DriftItem)
    requires Names(key, named)
    requires var want, have := ByKey(desired, key), ByKey(actual, key);
      forall k :: k in want.Keys + have.Keys ==>
        at(k)[item] ==
          if k != item.name then 0
          else if k in want && k in have then if change(want[k], have[k], item) then 1 else 0
          else if k in want then if missing(want[k], item) then 1 else 0
          else if unexpected(have[k], item) then 1 else 0
    ensures var want, have := ByKey(desired, key), ByKey(actual, key);
      Sum(want.Keys + have.Keys, at)[item] ==
      if Due(desired, actual, named, change, missing, unexpected, item) then 1 else 0
  {
    hide Sum, Kept, Absent, ByKey;
    var want, have, k := ByKey(desired, key), ByKey(actual, key), item.name;
    KeptIsMapped(desired, key, named, k);
    KeptIsMapped(actual, key, named, k);
    SumAtOne(want.Keys + have.Keys, at, k, item);
  }

  lemma PlusCounts(a: Items, b: Items, item: DriftItem)
    ensures Plus(a, b)[item] == a[item] + b[item]
  {
  }

  lemma IfCounts(c: bool, x: DriftItem, item: DriftItem)
    ensures If(c, x)[item] == if c && x == item then 1 else 0
  {
  }

  // ---------------------------------------------------------------- servers

  predicate ServerNamed(s: Server, k: string) {
    k != "" && k == if s.name != "" then s.name else s.id
  }

  ghost predicate TagChange(d: Server, a: Server, item: DriftItem) {
    exists tag :: tag in d.tags && (tag in a.tags ==> a.tags[tag] != d.tags[tag])
      && (tag !in a.tags ==> d.tags[tag] != "")
      && item == DriftItem("server", a.id, item.name, "tags." + tag, Shown.Text(d.tags[tag]),
                           Shown.Text(if tag in a.tags then a.tags[tag] else ""), Info, true)
  }

  ghost predicate ServerChange(d: Server, a: Server, item: DriftItem) {
    || (d.flavor != "" && a.flavor != "" && d.flavor != a.flavor
        && item == DriftItem("server", a.id, item.name, "flavor", Shown.Text(d.flavor), Shown.Text(a.flavor), Critical,
                             false))
    || (d.image != "" && a.image != "" && d.image != a.image
        && item == DriftItem("server", a.id, item.name, "image", Shown.Text(d.image), Shown.Text(a.image), Critical,
                             false))
    || (a.status != "" && !EqualFold(a.status, "ACTIVE")
        && item == DriftItem("server", a.id, item.name, "status", Shown.Text("ACTIVE"), Shown.Text(a.status), Critical,
                             false))
    || TagChange(d, a, item)
    || (d.networks != [] && !EqualStringSets(d.networks, a.networks)
        && item == DriftItem("server", a.id, item.name, "networks", List(SortedCopy(d.networks)),
                             List(SortedCopy(a.networks)), Warning, false))
  }

  predicate Missing(kind: string, id: string, severity: Severity, item: DriftItem) {
    item == DriftItem(kind, id, item.name, "existence", Shown.Text("exists"), Shown.Text("missing"), severity, false)
  }

  predicate Unexpected(kind: string, id: string, item: DriftItem) {
    item == DriftItem(kind, id, item.name, "existence", Shown.Text("not exists"), Shown.Text("exists"), Warning, false)
  }

  /** The role tag says, in any case, that it is a server of the control plane. */
  predicate IsControlPlane(s: Server) {
    "role" in s.tags && (ToLower(s.tags["role"]) == "control-plane" || ToLower(s.tags["role"]) == "master")
  }

  predicate ServerMissing(d: Server, item: DriftItem) {
    Missing("server", d.id, if IsControlPlane(d) then Critical else Warning, item)
  }

  ghost predicate ServerDue(desired: seq<Server>, actual: seq<Server>, item: DriftItem) {
    Due(desired, actual, ServerNamed, ServerChange, ServerMissing,
        (a: Server, x: DriftItem) => Unexpected("server", a.id, x), item)
  }

  lemma TagsCount(key: string, d: Server, a: Server, item: DriftItem)
    ensures Sum(d.tags.Keys, Tags(key, d, a))[item] == if item.name == key && TagChange(d, a, item) then 1 else 0
  {
    hide Sum;
    var at := Tags(key, d, a);
    if item.name == key && TagChange(d, a, item) {
      var tag :| tag in d.tags && item.field == "tags." + tag && at(tag)[item] == 1;
      forall t | t in d.tags && t != tag ensures at(t)[item] == 0 { SameTag(t, tag); }
      SumAtOne(d.tags.Keys, at, tag, item);
    } else {
      SumHas(d.tags.Keys, at, item);
    }
  }

  lemma SameTag(s: string, t: string)
    ensures "tags." + s == "tags." + t ==> s == t
  {
    if "tags." + s == "tags." + t { assert s == ("tags." + s)[5..] && t == ("tags." + t)[5..]; }
  }

  lemma FieldOfTag(tag: string)
    ensures "tags." + tag !in {"flavor", "image", "status", "networks", "existence"}
  {
    assert ("tags." + tag)[0] == 't';
  }

  lemma ServerCounts(key: string, d: Server, a: Server, item: DriftItem)
    ensures ServerFields(key, d, a)[item] == if item.name == key && ServerChange(d, a, item) then 1 else 0
  {
    hide Sum, Plus, If, EqualStringSets, SortedCopy, EqualFold, TagChange, Tags;
    var f := If(Differ(d.flavor, a.flavor), FlavorItem(key, d, a));
    var i := If(Differ(d.image, a.image), ImageItem(key, d, a));
    var s := If(StatusBad(a), StatusItem(key, a));
    var t := Sum(d.tags.Keys, Tags(key, d, a));
    var n := If(NetworksDiffer(d, a), NetworksItem(key, d, a));
    PlusCounts(f, i, item);
    PlusCounts(Plus(f, i), s, item);
    PlusCounts(Plus(Plus(f, i), s), t, item);
    PlusCounts(Plus(Plus(Plus(f, i), s), t), n, item);
    IfCounts(Differ(d.flavor, a.flavor), FlavorItem(key, d, a), item);
    IfCounts(Differ(d.image, a.image), ImageItem(key, d, a), item);
    IfCounts(StatusBad(a), StatusItem(key, a), item);
    IfCounts(NetworksDiffer(d, a), NetworksItem(key, d, a), item);
    TagsCount(key, d, a, item);
    if TagChange(d, a, item) { TagHasTagField(d, a, item); }
  }

  lemma TagHasTagField(d: Server, a: Server, item: DriftItem)
    requires TagChange(d, a, item)
    ensures item.field !in {"flavor", "image", "status", "networks", "existence"}
  {
    var tag :| tag in d.tags && item.field == "tags." + tag;
    FieldOfTag(tag);
  }

  lemma ControlPlaneIsCritical(s: Server)
    ensures MissingServerSeverity(s) == if IsControlPlane(s) then Critical else Warning
  {
    NothingIsLower();
    hide ToLower;
  }

  lemma NothingIsLower()
    ensures ToLower("") == ""
  {
  }

  lemma ServerReport(desired: seq<Server>, actual: seq<Server>, item: DriftItem)
    ensures ServerDrifts(desired, actual)[item] == if ServerDue(desired, actual, item) then 1 else 0
  {
    hide Sum, ServerFields, ServerChange, Due, ByKey, IsControlPlane, MissingServerSeverity;
    var want, have := ByKey(desired, ServerKey), ByKey(actual, ServerKey);
    forall k | k in want && k in have { ServerCounts(k, want[k], have[k], item); }
    forall k | k in want { ControlPlaneIsCritical(want[k]); }
    KeyedReport(desired, actual, ServerKey, ServerNamed, ServerChange, ServerMissing,
                (a: Server, x: DriftItem) => Unexpected("server", a.id, x), Servers(want, have), item);
  }

  // ---------------------------------------------------------------- networks and their subnets

  predicate NetworkNamed(n: Network, k: string) {
    k != "" && k == if n.name != "" then n.name else n.id
  }

  predicate SubnetNamed(s: Subnet, k: string) {
    k != "" && k == if s.name != "" then s.name else if s.cidr != "" then s.cidr else s.id
  }

  ghost predicate SubnetDueAt(name: string, id: string, desired: seq<Subnet>, actual: seq<Subnet>, s: string,
                              item: DriftItem) {
    || (exists d, a :: Kept(desired, SubnetNamed, d, s) && Kept(actual, SubnetNamed, a, s)
          && d.cidr != "" && a.cidr != "" && d.cidr != a.cidr
          && item == DriftItem("network", id, name, "subnets." + s + ".cidr", Shown.Text(d.cidr), Shown.Text(a.cidr),
                               Critical, false))
    || ((exists d :: Kept(desired, SubnetNamed, d, s)) && Absent(actual, SubnetNamed, s)
        && item == DriftItem("network", id, name, "subnets." + s + ".existence", Shown.Text("exists"),
                             Shown.Text("missing"), Critical, false))
    || ((exists a :: Kept(actual, SubnetNamed, a, s)) && Absent(desired, SubnetNamed, s)
        && item == DriftItem("network", id, name, "subnets." + s + ".existence", Shown.Text("not exists"),
                             Shown.Text("exists"), Warning, false))
  }

  ghost predicate SubnetDue(name: string, id: string, desired: seq<Subnet>, actual: seq<Subnet>, item: DriftItem) {
    exists s :: SubnetDueAt(name, id, desired, actual, s, item)
  }

  ghost predicate NetworkChange(d: Network, a: Network, item: DriftItem) {
    || (d.cidr != "" && a.cidr != "" && d.cidr != a.cidr
        && item == DriftItem("network", a.id, item.name, "cidr", Shown.Text(d.cidr), Shown.Text(a.cidr), Critical,
                             false))
    || SubnetDue(item.name, a.id, d.subnets, a.subnets, item)
  }

  ghost predicate NetworkDue(desired: seq<Network>, actual: seq<Network>, item: DriftItem) {
    Due(desired, actual, NetworkNamed, NetworkChange,
        (d: Network, x: DriftItem) => Missing("network", d.id, Critical, x),
        (a: Network, x: DriftItem) => Unexpected("network", a.id, x), item)
  }

  lemma SameSubnet(s: string, t: string)
    ensures "subnets." + s + ".cidr" == "subnets." + t + ".cidr" ==> s == t
    ensures "subnets." + s + ".existence" == "subnets." + t + ".existence" ==> s == t
    ensures "subnets." + s + ".cidr" != "subnets." + t + ".existence"
    ensures "subnets." + s + ".cidr" !in {"cidr", "existence"}
    ensures "subnets." + s + ".existence" !in {"cidr", "existence"}
  {
    var a, b, c, d := "subnets." + s + ".cidr", "subnets." + t + ".cidr", "subnets." + s + ".existence",
      "subnets." + t + ".existence";
    assert s == a[8..|a| - 5] == c[8..|c| - 10] && t == b[8..|b| - 5] == d[8..|d| - 10];
    assert a[|a| - 1] == 'r' && d[|d| - 1] == 'e' && a[0] == 's' && c[0] == 's';
  }

  lemma SubnetAt(name: string, id: string, desired: seq<Subnet>, actual: seq<Subnet>, s: string, item: DriftItem)
    ensures var want, have := ByKey(desired, SubnetKey), ByKey(actual, SubnetKey);
      SubnetsAt(name, id, want, have, s)[item] == if SubnetDueAt(name, id, desired, actual, s, item) then 1 else 0
  {
    hide ByKey, Kept, Absent;
    SubnetNames();
    KeptIsMapped(desired, SubnetKey, SubnetNamed, s);
    KeptIsMapped(actual, SubnetKey, SubnetNamed, s);
    SameSubnet(s, s);
    var want, have := ByKey(desired, SubnetKey), ByKey(actual, SubnetKey);
    assert s in want ==> Kept(desired, SubnetNamed, want[s], s);
    assert s in have ==> Kept(actual, SubnetNamed, have[s], s);
  }

  lemma SubnetNames()
    ensures Names(SubnetKey, SubnetNamed)
  {
  }

  lemma SubnetCounts(name: string, id: string, desired: seq<Subnet>, actual: seq<Subnet>, item: DriftItem)
    ensures SubnetDrifts(name, id, desired, actual)[item] ==
      if SubnetDue(name, id, desired, actual, item) then 1 else 0
  {
    hide Sum, SubnetsAt, ByKey, SubnetDueAt;
    var want, have := ByKey(desired, SubnetKey), ByKey(actual, SubnetKey);
    var at, keys := Subnets(name, id, want, have), want.Keys + have.Keys;
    forall s ensures at(s)[item] == if SubnetDueAt(name, id, desired, actual, s, item) then 1 else 0 {
      SubnetAt(name, id, desired, actual, s, item);
    }
    if s :| SubnetDueAt(name, id, desired, actual, s, item) {
      forall t | t != s ensures at(t)[item] == 0 { OneSubnet(name, id, desired, actual, s, t, item); }
      NoSubnetItems(name, id, want, have, s);
      SumAtOne(keys, at, s, item);
    } else {
      SumHas(keys, at, item);
    }
  }

  lemma NoSubnetItems(name: string, id: string, want: map<string, Subnet>, have: map<string, Subnet>, s: string)
    ensures s !in want && s !in have ==> SubnetsAt(name, id, want, have, s) == multiset{}
  {
  }

  lemma OneSubnet(name: string, id: string, desired: seq<Subnet>, actual: seq<Subnet>, s: string, t: string,
                  item: DriftItem)
    requires SubnetDueAt(name, id, desired, actual, s, item) && s != t
    ensures !SubnetDueAt(name, id, desired, actual, t, item)
  {
    hide Kept, Absent;
    SameSubnet(s, t);
    SameSubnet(t, s);
  }

  lemma SubnetField(name: string, id: string, desired: seq<Subnet>, actual: seq<Subnet>, item: DriftItem)
    requires SubnetDue(name, id, desired, actual, item)
    ensures item.field !in {"cidr", "existence"} && item.name == name
  {
    hide Kept, Absent;
    var s :| SubnetDueAt(name, id, desired, actual, s, item);
    SameSubnet(s, s);
  }

  lemma NetworkCounts(key: string, d: Network, a: Network, item: DriftItem)
    ensures NetworkFields(key, d, a)[item] == if item.name == key && NetworkChange(d, a, item) then 1 else 0
  {
    hide Sum, Plus, If, SubnetDrifts, SubnetDue;
    var cidr := Changed("network", a.id, key, "cidr", d.cidr, a.cidr, Critical);
    PlusCounts(If(Differ(d.cidr, a.cidr), cidr), SubnetDrifts(key, a.id, d.subnets, a.subnets), item);
    IfCounts(Differ(d.cidr, a.cidr), cidr, item);
    SubnetCounts(key, a.id, d.subnets, a.subnets, item);
    if SubnetDue(key, a.id, d.subnets, a.subnets, item) { SubnetField(key, a.id, d.subnets, a.subnets, item); }
  }

  lemma NetworkReport(desired: seq<Network>, actual: seq<Network>, item: DriftItem)
    ensures NetworkDrifts(desired, actual)[item] == if NetworkDue(desired, actual, item) then 1 else 0
  {
    hide Sum, NetworkFields, NetworkChange, Due, ByKey;
    var want, have := ByKey(desired, NetworkKey), ByKey(actual, NetworkKey);
    forall k | k in want && k in have { NetworkCounts(k, want[k], have[k], item); }
    KeyedReport(desired, actual, NetworkKey, NetworkNamed, NetworkChange,
                (d: Network, x: DriftItem) => Missing("network", d.id, Critical, x),
                (a: Network, x: DriftItem) => Unexpected("network", a.id, x), Networks(want, have), item);
  }

  // ---------------------------------------------------------------- security groups

  predicate GroupNamed(g: SecurityGroup, k: string) {
    k != "" && k == if g.name != "" then g.name else g.id
  }

  /** Some desired rule is nowhere in the group, or some rule nobody asked for opens it. */
  ghost predicate GroupChange(d: SecurityGroup, a: SecurityGroup, item: DriftItem) {
    var lacks := exists r :: r in d.rules && !Contains(a.rules, r);
    var opens := exists r :: r in a.rules && !Contains(d.rules, r) && IsHighRisk(r);
    var lacksRisky := exists r :: r in d.rules && !Contains(a.rules, r) && IsHighRisk(r);
    && d.rules != [] && (lacks || opens)
    && item == DriftItem("security_group", a.id, item.name, "rules", Rules(d.rules), Rules(a.rules),
                         if opens || lacksRisky then Critical else Warning, true)
  }

  ghost predicate GroupDue(desired: seq<SecurityGroup>, actual: seq<SecurityGroup>, item: DriftItem) {
    Due(desired, actual, GroupNamed, GroupChange,
        (d: SecurityGroup, x: DriftItem) => Missing("security_group", d.id, Critical, x),
        (a: SecurityGroup, x: DriftItem) => Unexpected("security_group", a.id, x), item)
  }

  lemma GroupCounts(key: string, d: SecurityGroup, a: SecurityGroup, item: DriftItem)
    ensures GroupFields(key, d, a)[item] == if item.name == key && GroupChange(d, a, item) then 1 else 0
  {
    hide SecurityRules.Missing, RiskyExtra, Contains, IsHighRisk;
    var missing, risky := SecurityRules.Missing(d.rules, a.rules), RiskyExtra(d.rules, a.rules);
    forall r ensures r in missing <==> r in d.rules && !Contains(a.rules, r) { MissingMembers(d.rules, a.rules, r); }
    forall r ensures r in risky <==> r in a.rules && !Contains(d.rules, r) && IsHighRisk(r) {
      RiskyExtraMembers(d.rules, a.rules, r);
    }
    if missing != [] { assert missing[0] in missing; }
    if risky != [] { assert risky[0] in risky; }
  }

  lemma GroupReport(desired: seq<SecurityGroup>, actual: seq<SecurityGroup>, item: DriftItem)
    ensures GroupDrifts(desired, actual)[item] == if GroupDue(desired, actual, item) then 1 else 0
  {
    hide Sum, GroupFields, GroupChange, Due, ByKey;
    var want, have := ByKey(desired, GroupKey), ByKey(actual, GroupKey);
    forall k | k in want && k in have { GroupCounts(k, want[k], have[k], item); }
    KeyedReport(desired, actual, GroupKey, GroupNamed, GroupChange,
                (d: SecurityGroup, x: DriftItem) => Missing("security_group", d.id, Critical, x),
                (a: SecurityGroup, x: DriftItem) => Unexpected("security_group", a.id, x), Groups(want, have), item);
  }

  // ---------------------------------------------------------------- load balancers

  predicate BalancerNamed(b: LoadBalancer, k: string) {
    k != "" && k == if b.name != "" then b.name else b.id
  }

  predicate BalancerChange(d: LoadBalancer, a: LoadBalancer, item: DriftItem) {
    || (d.protocol != "" && a.protocol != "" && d.protocol != a.protocol
        && item == DriftItem("load_balancer", a.id, item.name, "protocol", Shown.Text(d.protocol),
                             Shown.Text(a.protocol), Critical, false))
    || (d.port != 0 && a.port != 0 && d.port != a.port
        && item == DriftItem("load_balancer", a.id, item.name, "port", Number(d.port), Number(a.port), Critical, false))
    || (d.vip != "" && a.vip != "" && d.vip != a.vip
        && item == DriftItem("load_balancer", a.id, item.name, "vip", Shown.Text(d.vip), Shown.Text(a.vip), Critical,
                             false))
    || (d.members != [] && !EqualStringSets(d.members, a.members)
        && item == DriftItem("load_balancer", a.id, item.name, "members", List(SortedCopy(d.members)),
                             List(SortedCopy(a.members)), Warning, true))
  }

  ghost predicate BalancerDue(desired: seq<LoadBalancer>, actual: seq<LoadBalancer>, item: DriftItem) {
    Due(desired, actual, BalancerNamed, BalancerChange,
        (d: LoadBalancer, x: DriftItem) => Missing("load_balancer", d.id, Critical, x),
        (a: LoadBalancer, x: DriftItem) => Unexpected("load_balancer", a.id, x), item)
  }

  lemma BalancerCounts(key: string, d: LoadBalancer, a: LoadBalancer, item: DriftItem)
    ensures BalancerFields(key, d, a)[item] == if item.name == key && BalancerChange(d, a, item) then 1 else 0
  {
    hide Plus, If, EqualStringSets, SortedCopy;
    var p := If(Differ(d.protocol, a.protocol), ProtocolItem(key, d, a));
    var o := If(d.port != 0 && a.port != 0 && d.port != a.port, PortItem(key, d, a));
    var v := If(Differ(d.vip, a.vip), VipItem(key, d, a));
    var m := If(MembersDiffer(d, a), MembersItem(key, d, a));
    PlusCounts(p, o, item);
    PlusCounts(Plus(p, o), v, item);
    PlusCounts(Plus(Plus(p, o), v), m, item);
    IfCounts(Differ(d.protocol, a.protocol), ProtocolItem(key, d, a), item);
    IfCounts(d.port != 0 && a.port != 0 && d.port != a.port, PortItem(key, d, a), item);
    IfCounts(Differ(d.vip, a.vip), VipItem(key, d, a), item);
    IfCounts(MembersDiffer(d, a), MembersItem(key, d, a), item);
  }

  lemma BalancerReport(desired: seq<LoadBalancer>, actual: seq<LoadBalancer>, item: DriftItem)
    ensures BalancerDrifts(desired, actual)[item] == if BalancerDue(desired, actual, item) then 1 else 0
  {
    hide Sum, BalancerFields, BalancerChange, Due, ByKey;
    var want, have := ByKey(desired, BalancerKey), ByKey(actual, BalancerKey);
    forall k | k in want && k in have { BalancerCounts(k, want[k], have[k], item); }
    KeyedReport(desired, actual, BalancerKey, BalancerNamed, BalancerChange,
                (d: LoadBalancer, x: DriftItem) => Missing("load_balancer", d.id, Critical, x),
                (a: LoadBalancer, x: DriftItem) => Unexpected("load_balancer", a.id, x), Balancers(want, have), item);
  }

  // ---------------------------------------------------------------- volumes

  /** An attached volume goes by its server, any other by its name or else its ID. */
  predicate VolumeNamed(v: Volume, k: string) {
    || (v.attachedTo != "" && k == "attached:" + v.attachedTo)
    || (v.attachedTo == "" && v.name != "" && k == "name:" + v.name)
    || (v.attachedTo == "" && v.name == "" && v.id != "" && k == "id:" + v.id)
  }

  /** An attachment never differs: volumes of one key agree in it. */
  predicate VolumeChange(d: Volume, a: Volume, item: DriftItem) {
    || (d.size > 0 && a.size > 0 && d.size != a.size
        && item == DriftItem("volume", a.id, item.name, "size", Number(d.size), Number(a.size), Warning, false))
    || (d.status != "" && a.status != "" && !EqualFold(d.status, a.status)
        && item == DriftItem("volume", a.id, item.name, "status", Shown.Text(d.status), Shown.Text(a.status), Critical,
                             false))
    || (d.attachedTo != "" && a.attachedTo != "" && d.attachedTo != a.attachedTo
        && item == DriftItem("volume", a.id, item.name, "attached_to", Shown.Text(d.attachedTo),
                             Shown.Text(a.attachedTo), Critical, false))
  }

  ghost predicate VolumeDue(desired: seq<Volume>, actual: seq<Volume>, item: DriftItem) {
    Due(desired, actual, VolumeNamed, VolumeChange,
        (d: Volume, x: DriftItem) => Missing("volume", d.id, Critical, x),
        (a: Volume, x: DriftItem) => Unexpected("volume", a.id, x), item)
  }

  lemma VolumeCounts(key: string, d: Volume, a: Volume, item: DriftItem)
    ensures VolumeFields(key, d, a)[item] == if item.name == key && VolumeChange(d, a, item) then 1 else 0
  {
    hide Plus, If, EqualFold;
    var z := If(d.size > 0 && a.size > 0 && d.size != a.size, SizeItem(key, d, a));
    var s := If(DifferFold(d.status, a.status), VolumeStatusItem(key, d, a));
    var t := If(Differ(d.attachedTo, a.attachedTo), AttachedItem(key, d, a));
    PlusCounts(z, s, item);
    PlusCounts(Plus(z, s), t, item);
    IfCounts(d.size > 0 && a.size > 0 && d.size != a.size, SizeItem(key, d, a), item);
    IfCounts(DifferFold(d.status, a.status), VolumeStatusItem(key, d, a), item);
    IfCounts(Differ(d.attachedTo, a.attachedTo), AttachedItem(key, d, a), item);
  }

  lemma VolumeNames()
    ensures Names(VolumeKey, VolumeNamed)
  {
  }

  lemma VolumeReport(desired: seq<Volume>, actual: seq<Volume>, item: DriftItem)
    ensures VolumeDrifts(desired, actual)[item] == if VolumeDue(desired, actual, item) then 1 else 0
  {
    VolumeNames();
    hide Sum, VolumeFields, VolumeChange, Due, ByKey, VolumeKey, VolumeNamed;
    var want, have := ByKey(desired, VolumeKey), ByKey(actual, VolumeKey);
    forall k | k in want && k in have { VolumeCounts(k, want[k], have[k], item); }
    KeyedReport(desired, actual, VolumeKey, VolumeNamed, VolumeChange,
                (d: Volume, x: DriftItem) => Missing("volume", d.id, Critical, x),
                (a: Volume, x: DriftItem) => Unexpected("volume", a.id, x), Volumes(want, have), item);
  }

  // ---------------------------------------------------------------- floating IPs, paired by position

  /** How a pair is called: by the target, the address or the ID of the actual one, or by its position. */
  function PairNamed(i: nat, a: FloatingIP): string {
    if a.attachedTo != "" then "attached:" + a.attachedTo
    else if a.address != "" then "address:" + a.address
    else if a.id != "" then a.id
    else "floating-ip-" + Decimal(i + 1)
  }

  predicate PairChange(i: nat, d: FloatingIP, a: FloatingIP, item: DriftItem) {
    || (d.address != "" && a.address != "" && d.address != a.address
        && item == DriftItem("floating_ip", a.id, PairNamed(i, a), "address", Shown.Text(d.address),
                             Shown.Text(a.address), Warning, false))
    || (d.attachedTo != "" && a.attachedTo != "" && d.attachedTo != a.attachedTo
        && item == DriftItem("floating_ip", a.id, PairNamed(i, a), "attached_to", Shown.Text(d.attachedTo),
                             Shown.Text(a.attachedTo), Critical, false))
    || (d.status != "" && a.status != "" && !EqualFold(d.status, a.status)
        && item == DriftItem("floating_ip", a.id, PairNamed(i, a), "status", Shown.Text(d.status), Shown.Text(a.status),
                             Warning, false))
  }

  /** The positions at which a pair gives the item. */
  function PairsGiving(want: seq<FloatingIP>, have: seq<FloatingIP>, n: nat, item: DriftItem): set<nat>
    requires n <= |want| && n <= |have|
  {
    set i: nat | i < n && PairChange(i, want[i], have[i], item)
  }

  lemma PairCounts(i: nat, d: FloatingIP, a: FloatingIP, item: DriftItem)
    ensures PairAt(i, d, a)[item] == if PairChange(i, d, a, item) then 1 else 0
  {
    hide Plus, If, EqualFold, Decimal;
    var name := PairName(i, a);
    var x := PairItem(name, a.id, "address", d.address, a.address, Warning);
    var y := PairItem(name, a.id, "attached_to", d.attachedTo, a.attachedTo, Critical);
    var z := PairItem(name, a.id, "status", d.status, a.status, Warning);
    PlusCounts(If(Differ(d.address, a.address), x), If(Differ(d.attachedTo, a.attachedTo), y), item);
    PlusCounts(Plus(If(Differ(d.address, a.address), x), If(Differ(d.attachedTo, a.attachedTo), y)),
               If(DifferFold(d.status, a.status), z), item);
    IfCounts(Differ(d.address, a.address), x, item);
    IfCounts(Differ(d.attachedTo, a.attachedTo), y, item);
    IfCounts(DifferFold(d.status, a.status), z, item);
  }

  lemma {:induction false} PairsCount(want: seq<FloatingIP>, have: seq<FloatingIP>, n: nat, item: DriftItem)
    requires n <= |want| && n <= |have|
    ensures Pairs(want, have, n)[item] == |PairsGiving(want, have, n, item)|
  {
    hide PairAt, PairChange, PairsGiving, Plus;
    PairsGivingStep(want, have, n, item);
    if n > 0 {
      PairsCount(want, have, n - 1, item);
      PairCounts(n - 1, want[n - 1], have[n - 1], item);
      PlusCounts(Pairs(want, have, n - 1), PairAt(n - 1, want[n - 1], have[n - 1]), item);
    }
  }

  lemma PairsGivingStep(want: seq<FloatingIP>, have: seq<FloatingIP>, n: nat, item: DriftItem)
    requires n <= |want| && n <= |have|
    ensures |PairsGiving(want, have, n, item)| ==
      if n == 0 then 0
      else |PairsGiving(want, have, n - 1, item)| + if PairChange(n - 1, want[n - 1], have[n - 1], item) then 1 else 0
  {
    hide PairChange;
    if n == 0 {
      assert PairsGiving(want, have, n, item) == {};
    } else {
      var before := PairsGiving(want, have, n - 1, item);
      assert PairsGiving(want, have, n, item) ==
        if PairChange(n - 1, want[n - 1], have[n - 1], item) then before + {n - 1} else before;
    }
  }

  /** The number of floating IPs differs. */
  predicate CountDue(desired: seq<FloatingIP>, actual: seq<FloatingIP>, item: DriftItem) {
    |desired| != |actual|
    && item == DriftItem("floating_ip", "", "cluster-floating-ips", "count", Number(|desired|), Number(|actual|),
                         Critical, false)
  }

  lemma FloatingIPReport(desired: seq<FloatingIP>, actual: seq<FloatingIP>, sort: Sorter, item: DriftItem)
    ensures var want, have := sort(desired), sort(actual);
      FloatingIPDrifts(desired, actual, sort)[item] ==
      (if CountDue(desired, actual, item) then 1 else 0)
      + |PairsGiving(want, have, if |want| < |have| then |want| else |have|, item)|
  {
    hide Pairs, PairsGiving, Plus, If;
    var want, have := sort(desired), sort(actual);
    PairsCount(want, have, Min(|want|, |have|), item);
    IfCounts(|desired| != |actual|, CountItem(desired, actual), item);
    PlusCounts(If(|desired| != |actual|, CountItem(desired, actual)), Pairs(want, have, Min(|want|, |have|)), item);
  }

  // ---------------------------------------------------------------- the whole report

  function Times(due: bool): nat {
    if due then 1 else 0
  }

  /**
   * The report holds an item exactly as often as it is due: once for each difference between what both sides
   * keep under one name, once for each resource that only one side has, and for floating IPs once per pair.
   */
  lemma ReportHoldsExactlyTheDue(desired: InfrastructureState, actual: InfrastructureState, sort: Sorter,
                                 item: DriftItem)
    ensures var want, have := sort(desired.floatingIPs), sort(actual.floatingIPs);
      AllDrifts(desired, actual, sort)[item] ==
      Times(ServerDue(desired.servers, actual.servers, item))
      + Times(NetworkDue(desired.networks, actual.networks, item))
      + Times(GroupDue(desired.securityGroups, actual.securityGroups, item))
      + Times(BalancerDue(desired.loadBalancers, actual.loadBalancers, item))
      + Times(VolumeDue(desired.volumes, actual.volumes, item))
      + Times(CountDue(desired.floatingIPs, actual.floatingIPs, item))
      + |PairsGiving(want, have, if |want| < |have| then |want| else |have|, item)|
  {
    hide Plus, ServerDrifts, NetworkDrifts, GroupDrifts, BalancerDrifts, VolumeDrifts, FloatingIPDrifts, ServerDue,
      NetworkDue, GroupDue, BalancerDue, VolumeDue, CountDue, PairsGiving;
    ServerReport(desired.servers, actual.servers, item);
    NetworkReport(desired.networks, actual.networks, item);
    GroupReport(desired.securityGroups, actual.securityGroups, item);
    BalancerReport(desired.loadBalancers, actual.loadBalancers, item);
    VolumeReport(desired.volumes, actual.volumes, item);
    FloatingIPReport(desired.floatingIPs, actual.floatingIPs, sort, item);
    var s, n := ServerDrifts(desired.servers, actual.servers), NetworkDrifts(desired.networks, actual.networks);
    var g := GroupDrifts(desired.securityGroups, actual.securityGroups);
    var b := BalancerDrifts(desired.loadBalancers, actual.loadBalancers);
    var v := VolumeDrifts(desired.volumes, actual.volumes);
    PlusCounts(s, n, item);
    PlusCounts(Plus(s, n), g, item);
    PlusCounts(Plus(Plus(s, n), g), b, item);
    PlusCounts(Plus(Plus(Plus(s, n), g), b), v, item);
    PlusCounts(Plus(Plus(Plus(Plus(s, n), g), b), v),
               FloatingIPDrifts(desired.floatingIPs, actual.floatingIPs, sort), item);
  }

  /** What is due of one kind says so, so no item is due twice. */
  lemma DueTellsKind(desired: InfrastructureState, actual: InfrastructureState, item: DriftItem)
    ensures ServerDue(desired.servers, actual.servers, item) ==> item.resourceType == "server"
    ensures NetworkDue(desired.networks, actual.networks, item) ==> item.resourceType == "network"
    ensures GroupDue(desired.securityGroups, actual.securityGroups, item) ==> item.resourceType == "security_group"
    ensures BalancerDue(desired.loadBalancers, actual.loadBalancers, item) ==> item.resourceType == "load_balancer"
    ensures VolumeDue(desired.volumes, actual.volumes, item) ==> item.resourceType == "volume"
    ensures CountDue(desired.floatingIPs, actual.floatingIPs, item) ==> item.resourceType == "floating_ip"
  {
    hide Kept, Absent, Contains, IsHighRisk, EqualStringSets, EqualFold, IsControlPlane, ServerChange;
    if d, a :| Kept(desired.servers, ServerNamed, d, item.name) && Kept(actual.servers, ServerNamed, a, item.name)
               && ServerChange(d, a, item) {
      ServerChangeKind(d, a, item);
    }
  }

  lemma ServerChangeKind(d: Server, a: Server, item: DriftItem)
    requires ServerChange(d, a, item)
    ensures item.resourceType == "server"
  {
    hide EqualStringSets, EqualFold;
  }
}
