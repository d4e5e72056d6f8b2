/** What the drift specification implies: clean comparisons, volumes, and rule drift. */
module DriftProofs {
  import opened Text
  import opened CloudTypes
  import opened StringSets
  import opened SecurityRules
  import opened DriftSpec

  // ---------------------------------------------------------------- sorting and keys

  /** sort.Slice: the same list in key order, always the same way. */
  ghost predicate SortsByKey(sort: Sorter) {
    forall ips :: multiset(sort(ips)) == multiset(ips) && InKeyOrder(sort(ips))
  }

  predicate InKeyOrder(ips: seq<FloatingIP>) {
    forall i, j :: 0 <= i < j < |ips| ==> Leq(FloatingIPKey(ips[i]), FloatingIPKey(ips[j]))
  }

  /** Items with the same non-empty key are the same item. */
  ghost predicate KeysIdentify<T(!new)>(items: seq<T>, key: T -> string) {
    forall x, y :: x in items && y in items && key(x) == key(y) && key(x) != "" ==> x == y
  }

  lemma ByKeyMembers<T(!new)>(items: seq<T>, key: T -> string, k: string)
    requires KeysIdentify(items, key)
    ensures k in ByKey(items, key) ==> ByKey(items, key)[k] in items && key(ByKey(items, key)[k]) == k && k != ""
    ensures forall item :: item in items && key(item) == k && k != "" ==>
      k in ByKey(items, key) && ByKey(items, key)[k] == item
  {
  }

  lemma ByKeyOfPermutation<T(!new)>(xs: seq<T>, ys: seq<T>, key: T -> string)
    requires multiset(xs) == multiset(ys) && KeysIdentify(xs, key)
    ensures ByKey(xs, key) == ByKey(ys, key)
  {
    SameMembers(xs, ys);
    assert KeysIdentify(ys, key);
    var mx, my := ByKey(xs, key), ByKey(ys, key);
    forall k ensures k in mx <==> k in my {
      ByKeyMembers(xs, key, k);
      ByKeyMembers(ys, key, k);
    }
    forall k | k in mx ensures mx[k] == my[k] {
      ByKeyMembers(xs, key, k);
      ByKeyMembers(ys, key, k);
    }
  }

  lemma SameMembers<T>(xs: seq<T>, ys: seq<T>)
    requires multiset(xs) == multiset(ys)
    ensures forall x :: x in xs <==> x in ys
  {
    assert forall x :: x in xs <==> x in multiset(xs);
    assert forall x :: x in ys <==> x in multiset(ys);
  }

  ghost predicate AddressesIdentify(ips: seq<FloatingIP>) {
    forall x, y :: x in ips && y in ips && FloatingIPKey(x) == FloatingIPKey(y) ==> x == y
  }

  lemma FirstInOrder(xs: seq<FloatingIP>, ys: seq<FloatingIP>)
    requires InKeyOrder(xs) && xs != [] && ys != [] && multiset(xs) == multiset(ys)
    ensures Leq(FloatingIPKey(xs[0]), FloatingIPKey(ys[0]))
  {
    hide Leq, FloatingIPKey;
    assert ys[0] in multiset(xs);
    var j :| 0 <= j < |xs| && xs[j] == ys[0];
    LeqReflexive(FloatingIPKey(xs[0]));
  }

  lemma RestInOrder(xs: seq<FloatingIP>)
    requires InKeyOrder(xs) && AddressesIdentify(xs) && xs != []
    ensures InKeyOrder(xs[1..]) && AddressesIdentify(xs[1..])
    ensures multiset(xs[1..]) == multiset(xs) - multiset{xs[0]}
  {
    assert xs == [xs[0]] + xs[1..];
  }

  /** Any two key-ordered listings of the same floating IPs are the same list. */
  lemma {:induction false} KeyOrderIsUnique(xs: seq<FloatingIP>, ys: seq<FloatingIP>)
    requires InKeyOrder(xs) && InKeyOrder(ys) && multiset(xs) == multiset(ys) && AddressesIdentify(xs)
    ensures xs == ys
  {
    hide Leq, FloatingIPKey, InKeyOrder;
    assert |xs| == |multiset(xs)| == |ys|;
    SameMembers(xs, ys);
    if xs != [] {
      FirstInOrder(xs, ys);
      FirstInOrder(ys, xs);
      LeqAntisymmetric(FloatingIPKey(xs[0]), FloatingIPKey(ys[0]));
      RestInOrder(xs);
      RestInOrder(ys);
      KeyOrderIsUnique(xs[1..], ys[1..]);
      assert xs == [xs[0]] + xs[1..] && ys == [ys[0]] + ys[1..];
    }
  }

  // ---------------------------------------------------------------- resources that differ in the order of their lists

  predicate AlikeServers(d: Server, a: Server) {
    a == d.(networks := a.networks) && multiset(a.networks) == multiset(d.networks)
  }

  ghost predicate AlikeNetworks(d: Network, a: Network) {
    a == d.(subnets := a.subnets)
    && (a.subnets == d.subnets || (multiset(a.subnets) == multiset(d.subnets) && KeysIdentify(d.subnets, SubnetKey)))
  }

  predicate AlikeGroups(d: SecurityGroup, a: SecurityGroup) {
    a == d.(rules := a.rules) && multiset(a.rules) == multiset(d.rules)
  }

  predicate AlikeBalancers(d: LoadBalancer, a: LoadBalancer) {
    a == d.(members := a.members) && multiset(a.members) == multiset(d.members)
  }

  /** Both maps have the same keys, and at each of them resources that are alike. */
  ghost predicate Matched<T(!new)>(want: map<string, T>, have: map<string, T>, alike: (T, T) -> bool) {
    want.Keys == have.Keys && forall k :: k in want ==> alike(want[k], have[k])
  }

  lemma PlusEmpty(a: Items, b: Items)
    ensures Plus(a, b) == multiset{} <==> a == multiset{} && b == multiset{}
  {
  }

  lemma SameStatus(d: Server, a: Server)
    requires AlikeServers(d, a)
    ensures StatusBad(a) == StatusBad(d)
  {
    hide EqualFold;
  }

  lemma ServerAgainstAlike(key: string, d: Server, a: Server)
    requires AlikeServers(d, a)
    ensures ServerFields(key, d, a) == multiset{} <==> !StatusBad(d)
  {
    hide Plus, StatusBad, EqualStringSets;
    SameStatus(d, a);
    assert EqualStringSets(d.networks, a.networks) by { EqualToPermutation(d.networks, a.networks); }
    SumEmpty(d.tags.Keys, Tags(key, d, a));
    var f := If(Differ(d.flavor, a.flavor), FlavorItem(key, d, a));
    var i := If(Differ(d.image, a.image), ImageItem(key, d, a));
    var c := If(StatusBad(a), StatusItem(key, a));
    var t := Sum(d.tags.Keys, Tags(key, d, a));
    PlusEmpty(f, i);
    PlusEmpty(Plus(f, i), c);
    PlusEmpty(Plus(Plus(f, i), c), t);
    PlusEmpty(Plus(Plus(Plus(f, i), c), t), If(NetworksDiffer(d, a), NetworksItem(key, d, a)));
  }

  /** Every server kept under its key has no status or an active one. */
  predicate AllActive(servers: seq<Server>) {
    var m := ByKey(servers, ServerKey);
    forall key :: key in m ==> !StatusBad(m[key])
  }

  lemma MatchedServers(xs: seq<Server>, ys: seq<Server>)
    requires Matched(ByKey(xs, ServerKey), ByKey(ys, ServerKey), AlikeServers)
    ensures ServerDrifts(xs, ys) == multiset{} <==> AllActive(xs)
  {
    hide Sum, StatusBad, ServerFields, AlikeServers;
    var want, have := ByKey(xs, ServerKey), ByKey(ys, ServerKey);
    SumEmpty(want.Keys + have.Keys, Servers(want, have));
    forall key | key in want ensures Servers(want, have)(key) == multiset{} <==> !StatusBad(want[key]) {
      ServerAgainstAlike(key, want[key], have[key]);
    }
  }

  lemma AlikeSubnets(name: string, id: string, d: Network, a: Network)
    requires AlikeNetworks(d, a)
    ensures SubnetDrifts(name, id, d.subnets, a.subnets) == multiset{}
  {
    hide Sum;
    if a.subnets != d.subnets { ByKeyOfPermutation(d.subnets, a.subnets, SubnetKey); }
    var m := ByKey(d.subnets, SubnetKey);
    SumEmpty(m.Keys + m.Keys, Subnets(name, id, m, m));
  }

  lemma MatchedNetworks(xs: seq<Network>, ys: seq<Network>)
    requires Matched(ByKey(xs, NetworkKey), ByKey(ys, NetworkKey), AlikeNetworks)
    ensures NetworkDrifts(xs, ys) == multiset{}
  {
    hide Sum, SubnetDrifts, KeysIdentify;
    var want, have := ByKey(xs, NetworkKey), ByKey(ys, NetworkKey);
    SumEmpty(want.Keys + have.Keys, Networks(want, have));
    forall key | key in want ensures Networks(want, have)(key) == multiset{} {
      AlikeSubnets(key, have[key].id, want[key], have[key]);
    }
  }

  lemma NothingMissing(d: seq<SecurityRule>, a: seq<SecurityRule>)
    requires multiset(a) == multiset(d)
    ensures Missing(d, a) == [] && RiskyExtra(d, a) == []
  {
    hide Missing, RiskyExtra, Normalize, IsHighRisk;
    SameMembers(d, a);
    if Missing(d, a) != [] { MissingMembers(d, a, Missing(d, a)[0]); }
    if RiskyExtra(d, a) != [] { RiskyExtraMembers(d, a, RiskyExtra(d, a)[0]); }
  }

  lemma MatchedGroups(xs: seq<SecurityGroup>, ys: seq<SecurityGroup>)
    requires Matched(ByKey(xs, GroupKey), ByKey(ys, GroupKey), AlikeGroups)
    ensures GroupDrifts(xs, ys) == multiset{}
  {
    hide Sum, Missing, RiskyExtra;
    var want, have := ByKey(xs, GroupKey), ByKey(ys, GroupKey);
    SumEmpty(want.Keys + have.Keys, Groups(want, have));
    forall key | key in want ensures Groups(want, have)(key) == multiset{} {
      NothingMissing(want[key].rules, have[key].rules);
    }
  }

  lemma MatchedBalancers(xs: seq<LoadBalancer>, ys: seq<LoadBalancer>)
    requires Matched(ByKey(xs, BalancerKey), ByKey(ys, BalancerKey), AlikeBalancers)
    ensures BalancerDrifts(xs, ys) == multiset{}
  {
    hide Sum, EqualStringSets;
    var want, have := ByKey(xs, BalancerKey), ByKey(ys, BalancerKey);
    SumEmpty(want.Keys + have.Keys, Balancers(want, have));
    forall key | key in want ensures Balancers(want, have)(key) == multiset{} {
      EqualToPermutation(want[key].members, have[key].members);
    }
  }

  lemma MatchedVolumes(xs: seq<Volume>, ys: seq<Volume>)
    requires ByKey(xs, VolumeKey) == ByKey(ys, VolumeKey)
    ensures VolumeDrifts(xs, ys) == multiset{}
  {
    hide Sum, VolumesAt;
    var m := ByKey(xs, VolumeKey);
    SumEmpty(m.Keys + m.Keys, Volumes(m, m));
    forall key | key in m ensures Volumes(m, m)(key) == multiset{} { MatchedVolumesAgree(m, m, key); }
  }

  lemma SameFold(s: string)
    ensures EqualFold(s, s)
  {
  }

  lemma {:induction false} PairsWithThemselves(ips: seq<FloatingIP>, n: nat)
    requires n <= |ips|
    ensures Pairs(ips, ips, n) == multiset{}
  {
    hide PairAt;
    if n > 0 {
      PairsWithThemselves(ips, n - 1);
      PairWithItself(n - 1, ips[n - 1]);
      NoItems(multiset{});
    }
  }

  lemma PairWithItself(i: nat, ip: FloatingIP)
    ensures PairAt(i, ip, ip) == multiset{}
  {
    hide EqualFold, Plus, PairItem;
    SameFold(ip.status);
    NoItems(multiset{});
  }

  /** Keyed alike, resource by resource, and the same floating IPs once sorted. */
  ghost predicate MatchedStates(s: InfrastructureState, t: InfrastructureState, sort: Sorter) {
    && Matched(ByKey(s.servers, ServerKey), ByKey(t.servers, ServerKey), AlikeServers)
    && Matched(ByKey(s.networks, NetworkKey), ByKey(t.networks, NetworkKey), AlikeNetworks)
    && Matched(ByKey(s.securityGroups, GroupKey), ByKey(t.securityGroups, GroupKey), AlikeGroups)
    && Matched(ByKey(s.loadBalancers, BalancerKey), ByKey(t.loadBalancers, BalancerKey), AlikeBalancers)
    && ByKey(s.volumes, VolumeKey) == ByKey(t.volumes, VolumeKey)
    && |s.floatingIPs| == |t.floatingIPs| && sort(s.floatingIPs) == sort(t.floatingIPs)
  }

  lemma SameFloatingIPs(xs: seq<FloatingIP>, ys: seq<FloatingIP>, sort: Sorter)
    requires |xs| == |ys| && sort(xs) == sort(ys)
    ensures FloatingIPDrifts(xs, ys, sort) == multiset{}
  {
    hide Pairs;
    PairsWithThemselves(sort(xs), Min(|sort(xs)|, |sort(ys)|));
    NoItems(multiset{});
  }

  lemma MatchedStatesCompareClean(s: InfrastructureState, t: InfrastructureState, sort: Sorter)
    requires MatchedStates(s, t, sort)
    ensures AllDrifts(s, t, sort) == multiset{} <==> AllActive(s.servers)
  {
    hide AllActive, Plus, Matched, FloatingIPDrifts, ServerDrifts, NetworkDrifts, GroupDrifts, BalancerDrifts,
      VolumeDrifts;
    MatchedServers(s.servers, t.servers);
    MatchedNetworks(s.networks, t.networks);
    MatchedGroups(s.securityGroups, t.securityGroups);
    MatchedBalancers(s.loadBalancers, t.loadBalancers);
    MatchedVolumes(s.volumes, t.volumes);
    SameFloatingIPs(s.floatingIPs, t.floatingIPs, sort);
    NoItems(multiset{});
    NoItems(ServerDrifts(s.servers, t.servers));
  }

  /** Comparing a state with itself is clean exactly when every server kept under its key is active. */
  lemma CleanAgainstItself(s: InfrastructureState, sort: Sorter)
    ensures AllDrifts(s, s, sort) == multiset{} <==> AllActive(s.servers)
  {
    hide AllDrifts, AllActive, ByKey;
    MatchedStatesCompareClean(s, s, sort);
  }

  // ---------------------------------------------------------------- a state against a reordering of it

  ghost predicate Pointwise<T(!new)>(xs: seq<T>, ys: seq<T>, alike: (T, T) -> bool) {
    |xs| == |ys| && forall i :: 0 <= i < |xs| ==> alike(xs[i], ys[i])
  }

  /** The same resources in another order, each up to the order of its own lists. */
  ghost predicate Shuffled<T(!new)>(xs: seq<T>, ys: seq<T>, alike: (T, T) -> bool) {
    exists zs :: multiset(zs) == multiset(xs) && Pointwise(zs, ys, alike)
  }

  ghost predicate Reordered(s: InfrastructureState, t: InfrastructureState) {
    && Shuffled(s.servers, t.servers, AlikeServers) && Shuffled(s.networks, t.networks, AlikeNetworks)
    && Shuffled(s.securityGroups, t.securityGroups, AlikeGroups)
    && Shuffled(s.loadBalancers, t.loadBalancers, AlikeBalancers)
    && multiset(s.volumes) == multiset(t.volumes) && multiset(s.floatingIPs) == multiset(t.floatingIPs)
  }

  ghost predicate WellKeyed(s: InfrastructureState) {
    && KeysIdentify(s.servers, ServerKey) && KeysIdentify(s.networks, NetworkKey)
    && KeysIdentify(s.securityGroups, GroupKey) && KeysIdentify(s.loadBalancers, BalancerKey)
    && KeysIdentify(s.volumes, VolumeKey) && AddressesIdentify(s.floatingIPs)
  }

  lemma {:induction false} PointwiseMatches<T(!new)>(xs: seq<T>, ys: seq<T>, key: T -> string, alike: (T, T) -> bool)
    requires Pointwise(xs, ys, alike) && forall d, a :: alike(d, a) ==> key(d) == key(a)
    ensures Matched(ByKey(xs, key), ByKey(ys, key), alike)
  {
    if xs != [] {
      var n := |xs| - 1;
      assert Pointwise(xs[..n], ys[..n], alike);
      PointwiseMatches(xs[..n], ys[..n], key, alike);
      assert alike(xs[n], ys[n]);
    }
  }

  lemma ShuffledMatches<T(!new)>(xs: seq<T>, ys: seq<T>, key: T -> string, alike: (T, T) -> bool)
    requires Shuffled(xs, ys, alike) && KeysIdentify(xs, key) && forall d, a :: alike(d, a) ==> key(d) == key(a)
    ensures Matched(ByKey(xs, key), ByKey(ys, key), alike)
  {
    hide ByKey, KeysIdentify, Matched;
    var zs :| multiset(zs) == multiset(xs) && Pointwise(zs, ys, alike);
    ByKeyOfPermutation(xs, zs, key);
    PointwiseMatches(zs, ys, key, alike);
  }

  lemma SameListing(xs: seq<FloatingIP>, ys: seq<FloatingIP>, sort: Sorter)
    requires multiset(xs) == multiset(ys) && AddressesIdentify(xs) && SortsByKey(sort)
    ensures |xs| == |ys| && sort(xs) == sort(ys)
  {
    assert |xs| == |multiset(xs)| == |multiset(ys)| == |ys|;
    SameMembers(xs, sort(xs));
    KeyOrderIsUnique(sort(xs), sort(ys));
  }

  /** A well-keyed state compares with any reordering of it, inner lists included, as it does with itself. */
  lemma CleanAgainstReordering(s: InfrastructureState, t: InfrastructureState, sort: Sorter)
    requires SortsByKey(sort) && WellKeyed(s) && Reordered(s, t)
    ensures AllDrifts(s, t, sort) == multiset{} <==> AllActive(s.servers)
  {
    hide AllDrifts, AllActive, SortsByKey, KeysIdentify, Shuffled, Matched, ByKey, AddressesIdentify;
    ShuffledMatches(s.servers, t.servers, ServerKey, AlikeServers);
    ShuffledMatches(s.networks, t.networks, NetworkKey, AlikeNetworks);
    ShuffledMatches(s.securityGroups, t.securityGroups, GroupKey, AlikeGroups);
    ShuffledMatches(s.loadBalancers, t.loadBalancers, BalancerKey, AlikeBalancers);
    ByKeyOfPermutation(s.volumes, t.volumes, VolumeKey);
    SameListing(s.floatingIPs, t.floatingIPs, sort);
    MatchedStatesCompareClean(s, t, sort);
  }

  // ---------------------------------------------------------------- volumes

  /** The three key prefixes never collide. */
  lemma VolumeKeysTellAttachment(v: Volume, w: Volume)
    requires VolumeKey(v) == VolumeKey(w) && VolumeKey(v) != ""
    ensures v.attachedTo == w.attachedTo
  {
    var k := VolumeKey(v);
    assert k[0] == 'a' <==> v.attachedTo != "";
    assert k[0] == 'a' <==> w.attachedTo != "";
    if v.attachedTo != "" {
      assert v.attachedTo == k[9..] && w.attachedTo == k[9..];
    }
  }

  /** No volume item is ever about attached_to: a volume found elsewhere has another key. */
  lemma VolumesNeverReattached(desired: seq<Volume>, actual: seq<Volume>, item: DriftItem)
    requires item in VolumeDrifts(desired, actual)
    ensures item.field != "attached_to"
  {
    hide Sum, EqualFold;
    var want, have := ByKey(desired, VolumeKey), ByKey(actual, VolumeKey);
    SumHas(want.Keys + have.Keys, Volumes(want, have), item);
    var k :| k in want.Keys + have.Keys && item in Volumes(want, have)(k);
    if k in want && k in have {
      KeyOfKept(desired, k);
      KeyOfKept(actual, k);
      VolumeKeysTellAttachment(want[k], have[k]);
    }
  }

  lemma KeyOfKept(volumes: seq<Volume>, k: string)
    ensures k in ByKey(volumes, VolumeKey) ==> k != "" && VolumeKey(ByKey(volumes, VolumeKey)[k]) == k
  {
  }

  /** An item that only one key can give is in the sum as often as that key gives it. */
  lemma SumOfOneKey(keys: set<string>, at: string -> Items, key: string, item: DriftItem)
    requires key in keys && forall k :: k in keys && k != key ==> item !in at(k)
    ensures Sum(keys, at)[item] == at(key)[item]
  {
    hide Sum;
    SumRemove(keys, at, key);
    SumHas(keys - {key}, at, item);
  }

  function MissingVolume(v: Volume): DriftItem {
    Presence("volume", v.id, VolumeKey(v), "existence", true, Critical)
  }

  function UnexpectedVolume(v: Volume): DriftItem {
    Presence("volume", v.id, VolumeKey(v), "existence", false, Warning)
  }

  /** Items about existence are named by their key, and a field of a matched volume is never existence. */
  lemma ExistenceTellsKey(want: map<string, Volume>, have: map<string, Volume>, key: string, item: DriftItem)
    requires item in VolumesAt(want, have, key) && item.field == "existence"
    ensures item.name == key && !(key in want && key in have)
  {
    hide EqualFold;
  }

  /** A volume whose key is on one side only gives exactly one missing or exactly one unexpected item. */
  lemma MovedVolumeIsMissingAndUnexpected(desired: seq<Volume>, actual: seq<Volume>, v: Volume, w: Volume)
    requires v in desired && KeysIdentify(desired, VolumeKey) && w in actual && KeysIdentify(actual, VolumeKey)
    requires VolumeKey(v) != "" && VolumeKey(w) != ""
    requires forall x :: x in actual ==> VolumeKey(x) != VolumeKey(v)
    requires forall x :: x in desired ==> VolumeKey(x) != VolumeKey(w)
    ensures VolumeDrifts(desired, actual)[MissingVolume(v)] == 1
    ensures VolumeDrifts(desired, actual)[UnexpectedVolume(w)] == 1
  {
    hide Sum, VolumeFields;
    var want, have := ByKey(desired, VolumeKey), ByKey(actual, VolumeKey);
    var at := Volumes(want, have);
    ByKeyMembers(desired, VolumeKey, VolumeKey(v));
    ByKeyMembers(desired, VolumeKey, VolumeKey(w));
    ByKeyMembers(actual, VolumeKey, VolumeKey(v));
    ByKeyMembers(actual, VolumeKey, VolumeKey(w));
    hide VolumeKey, ByKey, VolumesAt;
    forall k, item | item in [MissingVolume(v), UnexpectedVolume(w)] && item in at(k) ensures item.name == k {
      ExistenceTellsKey(want, have, k, item);
    }
    assert MissingVolume(v) in [MissingVolume(v), UnexpectedVolume(w)];
    assert UnexpectedVolume(w) in [MissingVolume(v), UnexpectedVolume(w)];
    SumOfOneKey(want.Keys + have.Keys, at, VolumeKey(v), MissingVolume(v));
    SumOfOneKey(want.Keys + have.Keys, at, VolumeKey(w), UnexpectedVolume(w));
    OneSideOnly(want, have, VolumeKey(v));
    OneSideOnly(want, have, VolumeKey(w));
  }

  lemma OneSideOnly(want: map<string, Volume>, have: map<string, Volume>, key: string)
    ensures key in want && key !in have ==>
      VolumesAt(want, have, key) == One(Presence("volume", want[key].id, key, "existence", true, Critical))
    ensures key in have && key !in want ==>
      VolumesAt(want, have, key) == One(Presence("volume", have[key].id, key, "existence", false, Warning))
  {
  }

  lemma KeptHasItsKey<T(!new)>(items: seq<T>, key: T -> string, k: string)
    requires forall x :: x in items ==> key(x) != k
    ensures k !in ByKey(items, key)
  {
    ByKeyIsLastWins(items, key, k);
  }

  /** Replacing a uniquely keyed item by one with an unused key takes out the one key and adds the other. */
  lemma {:induction false} ByKeyReplaced<T(!new)>(items: seq<T>, key: T -> string, i: nat, item: T)
    requires i < |items| && key(items[i]) != "" && key(item) != ""
    requires forall j :: 0 <= j < |items| && j != i ==> key(items[j]) != key(items[i])
    requires forall j :: 0 <= j < |items| ==> key(items[j]) != key(item)
    ensures ByKey(items[i := item], key) == (ByKey(items, key) - {key(items[i])})[key(item) := item]
    ensures key(items[i]) in ByKey(items, key) && ByKey(items, key)[key(items[i])] == items[i]
    ensures key(item) !in ByKey(items, key)
  {
    var n := |items| - 1;
    var before := ByKey(items[..n], key);
    if i == n {
      assert items[i := item][..n] == items[..n];
      forall x | x in items[..n] ensures key(x) != key(items[i]) && key(x) != key(item) {
        var j :| 0 <= j < n && items[j] == x;
      }
      KeptHasItsKey(items[..n], key, key(items[i]));
      KeptHasItsKey(items[..n], key, key(item));
    } else {
      assert items[i := item][..n] == items[..n][i := item];
      ByKeyReplaced(items[..n], key, i, item);
      assert key(items[n]) != key(items[i]) && key(items[n]) != key(item);
    }
  }

  lemma MatchedVolumesAgree(want: map<string, Volume>, have: map<string, Volume>, k: string)
    requires k in want && k in have && want[k] == have[k]
    ensures VolumesAt(want, have, k) == multiset{}
  {
    hide EqualFold;
    SameFold(want[k].status);
  }

  /** One volume replaced by one with a key of its own: a missing item, an unexpected item, nothing else. */
  lemma ReplacedVolumeIsTwoItems(desired: seq<Volume>, i: nat, w: Volume)
    requires i < |desired| && VolumeKey(desired[i]) != "" && VolumeKey(w) != ""
    requires forall j :: 0 <= j < |desired| && j != i ==> VolumeKey(desired[j]) != VolumeKey(desired[i])
    requires forall j :: 0 <= j < |desired| ==> VolumeKey(desired[j]) != VolumeKey(w)
    ensures VolumeDrifts(desired, desired[i := w]) == multiset{MissingVolume(desired[i]), UnexpectedVolume(w)}
  {
    hide Sum, VolumesAt, VolumeKey;
    var v, actual := desired[i], desired[i := w];
    ByKeyReplaced(desired, VolumeKey, i, w);
    hide ByKey;
    var want, have := ByKey(desired, VolumeKey), ByKey(actual, VolumeKey);
    var at, keys := Volumes(want, have), want.Keys + have.Keys;
    var kv, kw := VolumeKey(v), VolumeKey(w);
    forall k | k in keys && k != kv && k != kw ensures at(k) == multiset{} { MatchedVolumesAgree(want, have, k); }
    SumRemove(keys, at, kv);
    SumRemove(keys - {kv}, at, kw);
    SumEmpty(keys - {kv} - {kw}, at);
    OneSideOnly(want, have, kv);
    OneSideOnly(want, have, kw);
  }

  /**
   * A uniquely keyed volume that moved to a server with no volume of its own is reported as one missing
   * and one unexpected volume, and as nothing else.
   */
  lemma MovedVolumeIsExactlyTwoItems(desired: seq<Volume>, i: nat, server: string)
    requires i < |desired| && VolumeKey(desired[i]) != "" && server != ""
    requires forall j :: 0 <= j < |desired| && j != i ==> VolumeKey(desired[j]) != VolumeKey(desired[i])
    requires forall j :: 0 <= j < |desired| ==> desired[j].attachedTo != server
    ensures var moved := desired[i].(attachedTo := server);
      VolumeDrifts(desired, desired[i := moved]) == multiset{MissingVolume(desired[i]), UnexpectedVolume(moved)}
  {
    hide VolumeDrifts, MissingVolume, UnexpectedVolume;
    var moved := desired[i].(attachedTo := server);
    forall j | 0 <= j < |desired| ensures VolumeKey(desired[j]) != VolumeKey(moved) {
      if VolumeKey(desired[j]) == VolumeKey(moved) { VolumeKeysTellAttachment(desired[j], moved); }
    }
    ReplacedVolumeIsTwoItems(desired, i, moved);
  }

  // ---------------------------------------------------------------- rules

  ghost predicate LacksDesired(d: SecurityGroup, a: SecurityGroup) {
    exists r :: r in d.rules && !Contains(a.rules, r)
  }

  ghost predicate OpensUndesired(d: SecurityGroup, a: SecurityGroup) {
    exists r :: r in a.rules && !Contains(d.rules, r) && IsHighRisk(r)
  }

  ghost predicate LacksHighRisk(d: SecurityGroup, a: SecurityGroup) {
    exists r :: r in d.rules && !Contains(a.rules, r) && IsHighRisk(r)
  }

  /** When a rules item is due for a group with desired rules, and when it is critical. */
  lemma RulesDriftExactlyWhen(key: string, d: SecurityGroup, a: SecurityGroup)
    requires d.rules != []
    ensures GroupFields(key, d, a) ==
      if !LacksDesired(d, a) && !OpensUndesired(d, a) then multiset{}
      else One(RulesItem(key, d, a, if LacksHighRisk(d, a) || OpensUndesired(d, a) then Critical else Warning))
  {
    hide Missing, RiskyExtra, Contains, IsHighRisk;
    var missing, risky := Missing(d.rules, a.rules), RiskyExtra(d.rules, a.rules);
    forall r ensures r in missing <==> r in d.rules && !Contains(a.rules, r) { MissingMembers(d.rules, a.rules, r); }
    forall r ensures r in risky <==> r in a.rules && !Contains(d.rules, r) && IsHighRisk(r) {
      RiskyExtraMembers(d.rules, a.rules, r);
    }
    assert missing != [] <==> LacksDesired(d, a) by { if missing != [] { assert missing[0] in missing; } }
    assert risky != [] <==> OpensUndesired(d, a) by { if risky != [] { assert risky[0] in risky; } }
  }
}
