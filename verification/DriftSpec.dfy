/**
 * What a drift report should contain, independent of the order in which the maps are visited:
 * the multiset sum, over all resource keys, of the items due at that key.
 */
module DriftSpec {
  import opened Text
  import opened CloudTypes
  import opened StringSets
  import opened SecurityRules

  // ---------------------------------------------------------------- sums over key sets

  type Items = multiset<DriftItem>

  function Plus(a: Items, b: Items): Items { a + b }

  function One(item: DriftItem): Items { multiset{item} }

  function If(c: bool, item: DriftItem): Items {
    if c then One(item) else multiset{}
  }

  ghost function Sum(keys: set<string>, at: string -> Items): Items {
    if keys == {} then multiset{} else var k :| k in keys; at(k) + Sum(keys - {k}, at)
  }

  lemma {:induction false} SumAdd(keys: set<string>, at: string -> Items, key: string)
    requires key !in keys
    ensures Sum(keys + {key}, at) == at(key) + Sum(keys, at)
    decreases keys
  {
    SumRemove(keys + {key}, at, key);
    assert keys + {key} - {key} == keys;
  }

  lemma {:induction false} SumRemove(keys: set<string>, at: string -> Items, key: string)
    requires key in keys
    ensures Sum(keys, at) == at(key) + Sum(keys - {key}, at)
    decreases keys
  {
    var k :| k in keys && Sum(keys, at) == at(k) + Sum(keys - {k}, at);
    if k != key {
      SumRemove(keys - {k}, at, key);
      SumRemove(keys - {key}, at, k);
      assert keys - {k} - {key} == keys - {key} - {k};
    }
  }

  lemma {:induction false} SumEmpty(keys: set<string>, at: string -> Items)
    ensures Sum(keys, at) == multiset{} <==> forall k :: k in keys ==> at(k) == multiset{}
    decreases keys
  {
    if keys != {} {
      var k :| k in keys;
      SumRemove(keys, at, k);
      SumEmpty(keys - {k}, at);
    }
  }

  lemma {:induction false} SumHas(keys: set<string>, at: string -> Items, item: DriftItem)
    ensures item in Sum(keys, at) <==> exists k :: k in keys && item in at(k)
    decreases keys
  {
    if keys != {} {
      var k :| k in keys;
      SumRemove(keys, at, k);
      SumHas(keys - {k}, at, item);
    }
  }

  /** Adding what is due at one more key. */
  lemma Grow(before: Items, keys: set<string>, at: string -> Items, key: string)
    requires key !in keys
    ensures Plus(Plus(before, Sum(keys, at)), at(key)) == Plus(before, Sum(keys + {key}, at))
  {
    SumAdd(keys, at, key);
  }

  lemma NothingYet(before: Items, at: string -> Items)
    ensures Plus(before, Sum({}, at)) == before
  {
  }

  lemma NoItems(before: Items)
    ensures Plus(before, multiset{}) == before == Plus(before, Plus(multiset{}, multiset{}))
  {
  }

  lemma Regroup(before: Items, a: Items, b: Items)
    ensures Plus(Plus(before, a), b) == Plus(before, Plus(a, b))
  {
  }

  lemma Regroup3(before: Items, a: Items, b: Items, c: Items)
    ensures Plus(Plus(Plus(before, a), b), c) == Plus(before, Plus(Plus(a, b), c))
  {
  }

  lemma Regroup4(before: Items, a: Items, b: Items, c: Items, d: Items)
    ensures Plus(Plus(Plus(Plus(before, a), b), c), d) == Plus(before, Plus(Plus(Plus(a, b), c), d))
  {
  }

  lemma Regroup5(before: Items, a: Items, b: Items, c: Items, d: Items, e: Items)
    ensures Plus(Plus(Plus(Plus(Plus(before, a), b), c), d), e) == Plus(before, Plus(Plus(Plus(Plus(a, b), c), d), e))
  {
  }

  // ---------------------------------------------------------------- keys

  function ServerKey(s: Server): string { if s.name != "" then s.name else s.id }

  function NetworkKey(n: Network): string { if n.name != "" then n.name else n.id }

  function SubnetKey(s: Subnet): string { if s.name != "" then s.name else if s.cidr != "" then s.cidr else s.id }

  function GroupKey(g: SecurityGroup): string { if g.name != "" then g.name else g.id }

  function BalancerKey(b: LoadBalancer): string { if b.name != "" then b.name else b.id }

  function VolumeKey(v: Volume): string {
    if v.attachedTo != "" then "attached:" + v.attachedTo
    else if v.name != "" then "name:" + v.name
    else if v.id != "" then "id:" + v.id
    else ""
  }

  function FloatingIPKey(f: FloatingIP): string {
    if f.attachedTo != "" then "attached:" + f.attachedTo
    else if f.address != "" then "address:" + f.address
    else f.id
  }

  /** The last item with each non-empty key. */
  function ByKey<T>(items: seq<T>, key: T -> string): map<string, T> {
    if items == [] then map[]
    else
      var n := |items| - 1;
      var before := ByKey(items[..n], key);
      if key(items[n]) == "" then before else before[key(items[n]) := items[n]]
  }

  /** i is the last position with this key. */
  ghost predicate LastAt<T(!new)>(items: seq<T>, key: T -> string, k: string, i: nat) {
    i < |items| && key(items[i]) == k && forall j :: i < j < |items| ==> key(items[j]) != k
  }

  lemma {:induction false} ByKeyIsLastWins<T(!new)>(items: seq<T>, key: T -> string, k: string)
    ensures k in ByKey(items, key) <==> k != "" && exists i :: 0 <= i < |items| && key(items[i]) == k
    ensures forall i: nat :: k != "" && LastAt(items, key, k, i) ==>
      k in ByKey(items, key) && ByKey(items, key)[k] == items[i]
  {
    if items != [] {
      var n := |items| - 1;
      ByKeyIsLastWins(items[..n], key, k);
      forall i: nat | k != "" && LastAt(items, key, k, i)
        ensures k in ByKey(items, key) && ByKey(items, key)[k] == items[i]
      {
        if i < n {
          assert LastAt(items[..n], key, k, i);
          assert key(items[n]) != k;
        }
      }
    }
  }

  // ---------------------------------------------------------------- the items due at one key

  function Presence(kind: string, id: string, name: string, field: string, missing: bool,
                    severity: Severity): DriftItem {
    DriftItem(kind, id, name, field,
              Shown.Text(if missing then "exists" else "not exists"),
              Shown.Text(if missing then "missing" else "exists"),
              severity, false)
  }

  function Changed(kind: string, id: string, name: string, field: string, expected: string, actual: string,
                   severity: Severity): DriftItem {
    DriftItem(kind, id, name, field, Shown.Text(expected), Shown.Text(actual), severity, false)
  }

  /** Both sides are given and they differ. */
  predicate Differ(expected: string, actual: string) {
    expected != "" && actual != "" && expected != actual
  }

  predicate DifferFold(expected: string, actual: string) {
    expected != "" && actual != "" && !EqualFold(expected, actual)
  }

  function Lookup(m: map<string, string>, key: string): string {
    if key in m then m[key] else ""
  }

  function MissingServerSeverity(s: Server): Severity {
    var role := ToLower(Lookup(s.tags, "role"));
    if role == "control-plane" || role == "master" then Critical else Warning
  }

  predicate StatusBad(s: Server) {
    s.status != "" && !EqualFold(s.status, "ACTIVE")
  }

  function FlavorItem(key: string, d: Server, a: Server): DriftItem {
    Changed("server", a.id, key, "flavor", d.flavor, a.flavor, Critical)
  }

  function ImageItem(key: string, d: Server, a: Server): DriftItem {
    Changed("server", a.id, key, "image", d.image, a.image, Critical)
  }

  function StatusItem(key: string, a: Server): DriftItem {
    Changed("server", a.id, key, "status", "ACTIVE", a.status, Critical)
  }

  function TagItem(key: string, d: Server, a: Server, tag: string): DriftItem
    requires tag in d.tags
  {
    DriftItem("server", a.id, key, "tags." + tag, Shown.Text(d.tags[tag]), Shown.Text(Lookup(a.tags, tag)), Info, true)
  }

  function TagAt(key: string, d: Server, a: Server, tag: string): Items {
    if tag in d.tags then If(Lookup(a.tags, tag) != d.tags[tag], TagItem(key, d, a, tag)) else multiset{}
  }

  function Tags(key: string, d: Server, a: Server): string -> Items { tag => TagAt(key, d, a, tag) }

  predicate NetworksDiffer(d: Server, a: Server) {
    |d.networks| > 0 && !EqualStringSets(d.networks, a.networks)
  }

  function NetworksItem(key: string, d: Server, a: Server): DriftItem {
    DriftItem("server", a.id, key, "networks", List(SortedCopy(d.networks)), List(SortedCopy(a.networks)), Warning,
              false)
  }

  ghost function ServerFields(key: string, d: Server, a: Server): Items {
    Plus(Plus(Plus(Plus(
      If(Differ(d.flavor, a.flavor), FlavorItem(key, d, a)),
      If(Differ(d.image, a.image), ImageItem(key, d, a))),
      If(StatusBad(a), StatusItem(key, a))),
      Sum(d.tags.Keys, Tags(key, d, a))),
      If(NetworksDiffer(d, a), NetworksItem(key, d, a)))
  }

  ghost function ServersAt(want: map<string, Server>, have: map<string, Server>, key: string): Items {
    if key in want then
      if key in have then ServerFields(key, want[key], have[key])
      else One(Presence("server", want[key].id, key, "existence", true, MissingServerSeverity(want[key])))
    else if key in have then One(Presence("server", have[key].id, key, "existence", false, Warning))
    else multiset{}
  }

  function SubnetItem(name: string, id: string, key: string, d: Subnet, a: Subnet): DriftItem {
    Changed("network", id, name, "subnets." + key + ".cidr", d.cidr, a.cidr, Critical)
  }

  function SubnetsAt(name: string, id: string, want: map<string, Subnet>, have: map<string, Subnet>,
                     key: string): Items {
    if key in want then
      if key in have then If(Differ(want[key].cidr, have[key].cidr), SubnetItem(name, id, key, want[key], have[key]))
      else One(Presence("network", id, name, "subnets." + key + ".existence", true, Critical))
    else if key in have then One(Presence("network", id, name, "subnets." + key + ".existence", false, Warning))
    else multiset{}
  }

  function Subnets(name: string, id: string, want: map<string, Subnet>, have: map<string, Subnet>): string -> Items {
    key => SubnetsAt(name, id, want, have, key)
  }

  ghost function SubnetDrifts(name: string, id: string, desired: seq<Subnet>, actual: seq<Subnet>): Items {
    var want, have := ByKey(desired, SubnetKey), ByKey(actual, SubnetKey);
    Sum(want.Keys + have.Keys, Subnets(name, id, want, have))
  }

  ghost function NetworkFields(key: string, d: Network, a: Network): Items {
    Plus(If(Differ(d.cidr, a.cidr), Changed("network", a.id, key, "cidr", d.cidr, a.cidr, Critical)),
         SubnetDrifts(key, a.id, d.subnets, a.subnets))
  }

  ghost function NetworksAt(want: map<string, Network>, have: map<string, Network>, key: string): Items {
    if key in want then
      if key in have then NetworkFields(key, want[key], have[key])
      else One(Presence("network", want[key].id, key, "existence", true, Critical))
    else if key in have then One(Presence("network", have[key].id, key, "existence", false, Warning))
    else multiset{}
  }

  ghost predicate RulesDiffer(d: SecurityGroup, a: SecurityGroup) {
    d.rules != [] && (Missing(d.rules, a.rules) != [] || RiskyExtra(d.rules, a.rules) != [])
  }

  ghost function RulesSeverity(d: SecurityGroup, a: SecurityGroup): Severity {
    if (exists r :: r in Missing(d.rules, a.rules) && IsHighRisk(r)) ||
       (exists r :: r in RiskyExtra(d.rules, a.rules) && IsHighRisk(r)) then Critical else Warning
  }

  function RulesItem(key: string, d: SecurityGroup, a: SecurityGroup, severity: Severity): DriftItem {
    DriftItem("security_group", a.id, key, "rules", Rules(d.rules), Rules(a.rules), severity, true)
  }

  ghost function GroupFields(key: string, d: SecurityGroup, a: SecurityGroup): Items {
    If(RulesDiffer(d, a), RulesItem(key, d, a, RulesSeverity(d, a)))
  }

  ghost function GroupsAt(want: map<string, SecurityGroup>, have: map<string, SecurityGroup>, key: string): Items {
    if key in want then
      if key in have then GroupFields(key, want[key], have[key])
      else One(Presence("security_group", want[key].id, key, "existence", true, Critical))
    else if key in have then One(Presence("security_group", have[key].id, key, "existence", false, Warning))
    else multiset{}
  }

  function ProtocolItem(key: string, d: LoadBalancer, a: LoadBalancer): DriftItem {
    Changed("load_balancer", a.id, key, "protocol", d.protocol, a.protocol, Critical)
  }

  function VipItem(key: string, d: LoadBalancer, a: LoadBalancer): DriftItem {
    Changed("load_balancer", a.id, key, "vip", d.vip, a.vip, Critical)
  }

  function PortItem(key: string, d: LoadBalancer, a: LoadBalancer): DriftItem {
    DriftItem("load_balancer", a.id, key, "port", Number(d.port), Number(a.port), Critical, false)
  }

  predicate MembersDiffer(d: LoadBalancer, a: LoadBalancer) {
    |d.members| > 0 && !EqualStringSets(d.members, a.members)
  }

  function MembersItem(key: string, d: LoadBalancer, a: LoadBalancer): DriftItem {
    DriftItem("load_balancer", a.id, key, "members", List(SortedCopy(d.members)), List(SortedCopy(a.members)),
              Warning, true)
  }

  function BalancerFields(key: string, d: LoadBalancer, a: LoadBalancer): Items {
    Plus(Plus(Plus(
      If(Differ(d.protocol, a.protocol), ProtocolItem(key, d, a)),
      If(d.port != 0 && a.port != 0 && d.port != a.port, PortItem(key, d, a))),
      If(Differ(d.vip, a.vip), VipItem(key, d, a))),
      If(MembersDiffer(d, a), MembersItem(key, d, a)))
  }

  function BalancersAt(want: map<string, LoadBalancer>, have: map<string, LoadBalancer>, key: string): Items {
    if key in want then
      if key in have then BalancerFields(key, want[key], have[key])
      else One(Presence("load_balancer", want[key].id, key, "existence", true, Critical))
    else if key in have then One(Presence("load_balancer", have[key].id, key, "existence", false, Warning))
    else multiset{}
  }

  function SizeItem(key: string, d: Volume, a: Volume): DriftItem {
    DriftItem("volume", a.id, key, "size", Number(d.size), Number(a.size), Warning, false)
  }

  function VolumeStatusItem(key: string, d: Volume, a: Volume): DriftItem {
    Changed("volume", a.id, key, "status", d.status, a.status, Critical)
  }

  function AttachedItem(key: string, d: Volume, a: Volume): DriftItem {
    Changed("volume", a.id, key, "attached_to", d.attachedTo, a.attachedTo, Critical)
  }

  function VolumeFields(key: string, d: Volume, a: Volume): Items {
    Plus(Plus(
      If(d.size > 0 && a.size > 0 && d.size != a.size, SizeItem(key, d, a)),
      If(DifferFold(d.status, a.status), VolumeStatusItem(key, d, a))),
      If(Differ(d.attachedTo, a.attachedTo), AttachedItem(key, d, a)))
  }

  function VolumesAt(want: map<string, Volume>, have: map<string, Volume>, key: string): Items {
    if key in want then
      if key in have then VolumeFields(key, want[key], have[key])
      else One(Presence("volume", want[key].id, key, "existence", true, Critical))
    else if key in have then One(Presence("volume", have[key].id, key, "existence", false, Warning))
    else multiset{}
  }

  // ---------------------------------------------------------------- floating IPs are paired by position after sorting

  function PairName(i: nat, a: FloatingIP): string {
    if FloatingIPKey(a) == "" then "floating-ip-" + Decimal(i + 1) else FloatingIPKey(a)
  }

  function PairItem(name: string, id: string, field: string, expected: string, actual: string,
                    severity: Severity): DriftItem {
    Changed("floating_ip", id, name, field, expected, actual, severity)
  }

  function PairAt(i: nat, d: FloatingIP, a: FloatingIP): Items {
    var name := PairName(i, a);
    Plus(Plus(
      If(Differ(d.address, a.address), PairItem(name, a.id, "address", d.address, a.address, Warning)),
      If(Differ(d.attachedTo, a.attachedTo),
         PairItem(name, a.id, "attached_to", d.attachedTo, a.attachedTo, Critical))),
      If(DifferFold(d.status, a.status), PairItem(name, a.id, "status", d.status, a.status, Warning)))
  }

  function Pairs(want: seq<FloatingIP>, have: seq<FloatingIP>, n: nat): Items
    requires n <= |want| && n <= |have|
  {
    if n == 0 then multiset{} else Plus(Pairs(want, have, n - 1), PairAt(n - 1, want[n - 1], have[n - 1]))
  }

  function CountItem(desired: seq<FloatingIP>, actual: seq<FloatingIP>): DriftItem {
    DriftItem("floating_ip", "", "cluster-floating-ips", "count", Number(|desired|), Number(|actual|), Critical, false)
  }

  function Min(a: nat, b: nat): nat { if a < b then a else b }

  type Sorter = seq<FloatingIP> -> seq<FloatingIP>

  function FloatingIPDrifts(desired: seq<FloatingIP>, actual: seq<FloatingIP>, sort: Sorter): Items {
    var want, have := sort(desired), sort(actual);
    Plus(If(|desired| != |actual|, CountItem(desired, actual)), Pairs(want, have, Min(|want|, |have|)))
  }

  // ---------------------------------------------------------------- the whole report

  ghost function Servers(want: map<string, Server>, have: map<string, Server>): string -> Items {
    k => ServersAt(want, have, k)
  }

  ghost function Networks(want: map<string, Network>, have: map<string, Network>): string -> Items {
    k => NetworksAt(want, have, k)
  }

  ghost function Groups(want: map<string, SecurityGroup>, have: map<string, SecurityGroup>): string -> Items {
    k => GroupsAt(want, have, k)
  }

  ghost function Balancers(want: map<string, LoadBalancer>, have: map<string, LoadBalancer>): string -> Items {
    k => BalancersAt(want, have, k)
  }

  ghost function Volumes(want: map<string, Volume>, have: map<string, Volume>): string -> Items {
    k => VolumesAt(want, have, k)
  }

  ghost function ServerDrifts(desired: seq<Server>, actual: seq<Server>): Items {
    var want, have := ByKey(desired, ServerKey), ByKey(actual, ServerKey);
    Sum(want.Keys + have.Keys, Servers(want, have))
  }

  ghost function NetworkDrifts(desired: seq<Network>, actual: seq<Network>): Items {
    var want, have := ByKey(desired, NetworkKey), ByKey(actual, NetworkKey);
    Sum(want.Keys + have.Keys, Networks(want, have))
  }

  ghost function GroupDrifts(desired: seq<SecurityGroup>, actual: seq<SecurityGroup>): Items {
    var want, have := ByKey(desired, GroupKey), ByKey(actual, GroupKey);
    Sum(want.Keys + have.Keys, Groups(want, have))
  }

  ghost function BalancerDrifts(desired: seq<LoadBalancer>, actual: seq<LoadBalancer>): Items {
    var want, have := ByKey(desired, BalancerKey), ByKey(actual, BalancerKey);
    Sum(want.Keys + have.Keys, Balancers(want, have))
  }

  ghost function VolumeDrifts(desired: seq<Volume>, actual: seq<Volume>): Items {
    var want, have := ByKey(desired, VolumeKey), ByKey(actual, VolumeKey);
    Sum(want.Keys + have.Keys, Volumes(want, have))
  }

  ghost function AllDrifts(desired: InfrastructureState, actual: InfrastructureState, sort: Sorter): Items {
    Plus(Plus(Plus(Plus(Plus(
      ServerDrifts(desired.servers, actual.servers),
      NetworkDrifts(desired.networks, actual.networks)),
      GroupDrifts(desired.securityGroups, actual.securityGroups)),
      BalancerDrifts(desired.loadBalancers, actual.loadBalancers)),
      VolumeDrifts(desired.volumes, actual.volumes)),
      FloatingIPDrifts(desired.floatingIPs, actual.floatingIPs, sort))
  }
}
