/**
 * The drift comparator of internal/cloud/compare.go, and the severity filter of cmd/cluster_drift.go.
 * Maps are visited by arbitrary choice, as Go does.
 */
module Drift {
  import opened Text
  import opened CloudTypes
  import opened SecurityRules
  import opened DriftSpec

  method MapByKey<T>(items: seq<T>, key: T -> string) returns (m: map<string, T>)
    ensures m == ByKey(items, key)
  {
    m := map[];
    for i := 0 to |items|
      invariant m == ByKey(items[..i], key)
    {
      assert items[..i + 1][..i] == items[..i];
      if key(items[i]) != "" { m := m[key(items[i]) := items[i]]; }
    }
    assert items[..|items|] == items;
  }

  class Report {
    var drifts: seq<DriftItem>
    var total: int
    var critical: int
    var warning: int
    var info: int
    var reconcilableCount: int
    var overall: Severity
    var reconcilable: bool

    constructor ()
      ensures drifts == [] && total == critical == warning == info == reconcilableCount == 0
      ensures overall == Info && !reconcilable
    {
      drifts := [];
      total, critical, warning, info, reconcilableCount := 0, 0, 0, 0, 0;
      overall, reconcilable := Info, false;
    }

    ghost function Content(): Items
      reads this`drifts
    {
      multiset(drifts)
    }

    method Append(item: DriftItem)
      modifies `drifts
      ensures Content() == Plus(old(Content()), One(item))
    {
      drifts := drifts + [item];
    }

    method AppendIf(c: bool, item: DriftItem)
      modifies `drifts
      ensures Content() == Plus(old(Content()), If(c, item))
    {
      if c { Append(item); }
    }

    method CompareServer(key: string, d: Server, a: Server)
      modifies `drifts
      ensures Content() == Plus(old(Content()), ServerFields(key, d, a))
    {
      hide Content, Plus, If, Sum, Differ, StatusBad, NetworksDiffer, NetworksItem;
      AppendIf(Differ(d.flavor, a.flavor), FlavorItem(key, d, a));
      AppendIf(Differ(d.image, a.image), ImageItem(key, d, a));
      AppendIf(StatusBad(a), StatusItem(key, a));
      CompareTags(key, d, a);
      AppendIf(NetworksDiffer(d, a), NetworksItem(key, d, a));
      Regroup5(old(Content()), If(Differ(d.flavor, a.flavor), FlavorItem(key, d, a)),
               If(Differ(d.image, a.image), ImageItem(key, d, a)), If(StatusBad(a), StatusItem(key, a)),
               Sum(d.tags.Keys, Tags(key, d, a)), If(NetworksDiffer(d, a), NetworksItem(key, d, a)));
    }

    method CompareTags(key: string, d: Server, a: Server)
      modifies `drifts
      ensures Content() == Plus(old(Content()), Sum(d.tags.Keys, Tags(key, d, a)))
    {
      hide Content, Plus, If, One, Sum;
      ghost var before, at := Content(), Tags(key, d, a);
      ghost var done: set<string> := {};
      NothingYet(before, at);
      var todo := d.tags.Keys;
      while todo != {}
        invariant done !! todo && done + todo == d.tags.Keys
        invariant Content() == Plus(before, Sum(done, at))
      {
        var tag :| tag in todo;
        Grow(before, done, at, tag);
        todo, done := todo - {tag}, done + {tag};
        AppendIf(Lookup(a.tags, tag) != d.tags[tag], TagItem(key, d, a, tag));
      }
    }

    method CompareNetwork(key: string, d: Network, a: Network)
      modifies `drifts
      ensures Content() == Plus(old(Content()), NetworkFields(key, d, a))
    {
      hide Content, Plus, If, Differ, SubnetDrifts;
      var item := Changed("network", a.id, key, "cidr", d.cidr, a.cidr, Critical);
      AppendIf(Differ(d.cidr, a.cidr), item);
      DetectSubnetDrift(key, a.id, d.subnets, a.subnets);
      Regroup(old(Content()), If(Differ(d.cidr, a.cidr), item), SubnetDrifts(key, a.id, d.subnets, a.subnets));
    }

    method DetectSubnetDrift(name: string, id: string, desired: seq<Subnet>, actual: seq<Subnet>)
      modifies `drifts
      ensures Content() == Plus(old(Content()), SubnetDrifts(name, id, desired, actual))
    {
      var want := MapByKey(desired, SubnetKey);
      var have := MapByKey(actual, SubnetKey);
      ghost var at := Subnets(name, id, want, have);
      ghost var before := Content();
      hide Content, Plus, If, One, Sum;
      var todo := want.Keys;
      ghost var done: set<string> := {};
      NothingYet(before, at);
      while todo != {}
        invariant done !! todo && done + todo == want.Keys
        invariant Content() == Plus(before, Sum(done, at))
      {
        var key :| key in todo;
        Grow(before, done, at, key);
        todo, done := todo - {key}, done + {key};
        if key !in have {
          Append(Presence("network", id, name, "subnets." + key + ".existence", true, Critical));
        } else {
          AppendIf(Differ(want[key].cidr, have[key].cidr), SubnetItem(name, id, key, want[key], have[key]));
        }
      }
      todo := have.Keys;
      while todo != {}
        invariant todo <= have.Keys && done == want.Keys + (have.Keys - todo)
        invariant Content() == Plus(before, Sum(done, at))
      {
        var key :| key in todo;
        todo := todo - {key};
        if key !in want {
          Grow(before, done, at, key);
          Append(Presence("network", id, name, "subnets." + key + ".existence", false, Warning));
          done := done + {key};
        }
      }
      assert done == want.Keys + have.Keys;
    }

    method CompareSecurityGroup(key: string, d: SecurityGroup, a: SecurityGroup)
      modifies `drifts
      ensures Content() == Plus(old(Content()), GroupFields(key, d, a))
    {
      hide Content, IsHighRisk, Missing, RiskyExtra;
      if |d.rules| == 0 { return; }
      var missing, riskyExtra := CompareSecurityRules(d.rules, a.rules);
      if |missing| == 0 && |riskyExtra| == 0 { return; }
      var severity := Warning;
      var riskyMissing := HasHighRiskRules(missing);
      var risky := HasHighRiskRules(riskyExtra);
      if (|missing| > 0 && riskyMissing) || risky { severity := Critical; }
      Append(RulesItem(key, d, a, severity));
    }

    method CompareLoadBalancer(key: string, d: LoadBalancer, a: LoadBalancer)
      modifies `drifts
      ensures Content() == Plus(old(Content()), BalancerFields(key, d, a))
    {
      hide Content, Plus, If, Differ, MembersDiffer, MembersItem;
      AppendIf(Differ(d.protocol, a.protocol), ProtocolItem(key, d, a));
      AppendIf(d.port != 0 && a.port != 0 && d.port != a.port, PortItem(key, d, a));
      AppendIf(Differ(d.vip, a.vip), VipItem(key, d, a));
      AppendIf(MembersDiffer(d, a), MembersItem(key, d, a));
      Regroup4(old(Content()), If(Differ(d.protocol, a.protocol), ProtocolItem(key, d, a)),
               If(d.port != 0 && a.port != 0 && d.port != a.port, PortItem(key, d, a)),
               If(Differ(d.vip, a.vip), VipItem(key, d, a)), If(MembersDiffer(d, a), MembersItem(key, d, a)));
    }

    method CompareVolume(key: string, d: Volume, a: Volume)
      modifies `drifts
      ensures Content() == Plus(old(Content()), VolumeFields(key, d, a))
    {
      hide Content, Plus, If, Differ, DifferFold;
      AppendIf(d.size > 0 && a.size > 0 && d.size != a.size, SizeItem(key, d, a));
      AppendIf(DifferFold(d.status, a.status), VolumeStatusItem(key, d, a));
      AppendIf(Differ(d.attachedTo, a.attachedTo), AttachedItem(key, d, a));
      Regroup3(old(Content()), If(d.size > 0 && a.size > 0 && d.size != a.size, SizeItem(key, d, a)),
               If(DifferFold(d.status, a.status), VolumeStatusItem(key, d, a)),
               If(Differ(d.attachedTo, a.attachedTo), AttachedItem(key, d, a)));
    }

    method DetectServerDrift(desired: seq<Server>, actual: seq<Server>)
      modifies `drifts
      ensures Content() == Plus(old(Content()), ServerDrifts(desired, actual))
    {
      var want := MapByKey(desired, ServerKey);
      var have := MapByKey(actual, ServerKey);
      ghost var at := Servers(want, have);
      ghost var before := Content();
      hide Content, Plus, If, One, Sum, ServerFields;
      var todo := want.Keys;
      ghost var done: set<string> := {};
      NothingYet(before, at);
      while todo != {}
        invariant done !! todo && done + todo == want.Keys
        invariant Content() == Plus(before, Sum(done, at))
      {
        var key :| key in todo;
        Grow(before, done, at, key);
        todo, done := todo - {key}, done + {key};
        if key !in have {
          Append(Presence("server", want[key].id, key, "existence", true, MissingServerSeverity(want[key])));
        } else {
          CompareServer(key, want[key], have[key]);
        }
      }
      todo := have.Keys;
      while todo != {}
        invariant todo <= have.Keys && done == want.Keys + (have.Keys - todo)
        invariant Content() == Plus(before, Sum(done, at))
      {
        var key :| key in todo;
        todo := todo - {key};
        if key !in want {
          Grow(before, done, at, key);
          Append(Presence("server", have[key].id, key, "existence", false, Warning));
          done := done + {key};
        }
      }
      assert done == want.Keys + have.Keys;
    }

    method DetectNetworkDrift(desired: seq<Network>, actual: seq<Network>)
      modifies `drifts
      ensures Content() == Plus(old(Content()), NetworkDrifts(desired, actual))
    {
      var want := MapByKey(desired, NetworkKey);
      var have := MapByKey(actual, NetworkKey);
      ghost var at := Networks(want, have);
      ghost var before := Content();
      hide Content, Plus, If, One, Sum, NetworkFields;
      var todo := want.Keys;
      ghost var done: set<string> := {};
      NothingYet(before, at);
      while todo != {}
        invariant done !! todo && done + todo == want.Keys
        invariant Content() == Plus(before, Sum(done, at))
      {
        var key :| key in todo;
        Grow(before, done, at, key);
        todo, done := todo - {key}, done + {key};
        if key !in have {
          Append(Presence("network", want[key].id, key, "existence", true, Critical));
        } else {
          CompareNetwork(key, want[key], have[key]);
        }
      }
      todo := have.Keys;
      while todo != {}
        invariant todo <= have.Keys && done == want.Keys + (have.Keys - todo)
        invariant Content() == Plus(before, Sum(done, at))
      {
        var key :| key in todo;
        todo := todo - {key};
        if key !in want {
          Grow(before, done, at, key);
          Append(Presence("network", have[key].id, key, "existence", false, Warning));
          done := done + {key};
        }
      }
      assert done == want.Keys + have.Keys;
    }

    method DetectSecurityGroupDrift(desired: seq<SecurityGroup>, actual: seq<SecurityGroup>)
      modifies `drifts
      ensures Content() == Plus(old(Content()), GroupDrifts(desired, actual))
    {
      var want := MapByKey(desired, GroupKey);
      var have := MapByKey(actual, GroupKey);
      ghost var at := Groups(want, have);
      ghost var before := Content();
      hide Content, Plus, If, One, Sum, GroupFields;
      var todo := want.Keys;
      ghost var done: set<string> := {};
      NothingYet(before, at);
      while todo != {}
        invariant done !! todo && done + todo == want.Keys
        invariant Content() == Plus(before, Sum(done, at))
      {
        var key :| key in todo;
        Grow(before, done, at, key);
        todo, done := todo - {key}, done + {key};
        if key !in have {
          Append(Presence("security_group", want[key].id, key, "existence", true, Critical));
        } else {
          CompareSecurityGroup(key, want[key], have[key]);
        }
      }
      todo := have.Keys;
      while todo != {}
        invariant todo <= have.Keys && done == want.Keys + (have.Keys - todo)
        invariant Content() == Plus(before, Sum(done, at))
      {
        var key :| key in todo;
        todo := todo - {key};
        if key !in want {
          Grow(before, done, at, key);
          Append(Presence("security_group", have[key].id, key, "existence", false, Warning));
          done := done + {key};
        }
      }
      assert done == want.Keys + have.Keys;
    }

    method DetectLoadBalancerDrift(desired: seq<LoadBalancer>, actual: seq<LoadBalancer>)
      modifies `drifts
      ensures Content() == Plus(old(Content()), BalancerDrifts(desired, actual))
    {
      var want := MapByKey(desired, BalancerKey);
      var have := MapByKey(actual, BalancerKey);
      ghost var at := Balancers(want, have);
      ghost var before := Content();
      hide Content, Plus, If, One, Sum, BalancerFields;
      var todo := want.Keys;
      ghost var done: set<string> := {};
      NothingYet(before, at);
      while todo != {}
        invariant done !! todo && done + todo == want.Keys
        invariant Content() == Plus(before, Sum(done, at))
      {
        var key :| key in todo;
        Grow(before, done, at, key);
        todo, done := todo - {key}, done + {key};
        if key !in have {
          Append(Presence("load_balancer", want[key].id, key, "existence", true, Critical));
        } else {
          CompareLoadBalancer(key, want[key], have[key]);
        }
      }
      todo := have.Keys;
      while todo != {}
        invariant todo <= have.Keys && done == want.Keys + (have.Keys - todo)
        invariant Content() == Plus(before, Sum(done, at))
      {
        var key :| key in todo;
        todo := todo - {key};
        if key !in want {
          Grow(before, done, at, key);
          Append(Presence("load_balancer", have[key].id, key, "existence", false, Warning));
          done := done + {key};
        }
      }
      assert done == want.Keys + have.Keys;
    }

    method DetectVolumeDrift(desired: seq<Volume>, actual: seq<Volume>)
      modifies `drifts
      ensures Content() == Plus(old(Content()), VolumeDrifts(desired, actual))
    {
      var want := MapByKey(desired, VolumeKey);
      var have := MapByKey(actual, VolumeKey);
      ghost var at := Volumes(want, have);
      ghost var before := Content();
      hide Content, Plus, If, One, Sum, VolumeFields;
      var todo := want.Keys;
      ghost var done: set<string> := {};
      NothingYet(before, at);
      while todo != {}
        invariant done !! todo && done + todo == want.Keys
        invariant Content() == Plus(before, Sum(done, at))
      {
        var key :| key in todo;
        Grow(before, done, at, key);
        todo, done := todo - {key}, done + {key};
        if key !in have {
          Append(Presence("volume", want[key].id, key, "existence", true, Critical));
        } else {
          CompareVolume(key, want[key], have[key]);
        }
      }
      todo := have.Keys;
      while todo != {}
        invariant todo <= have.Keys && done == want.Keys + (have.Keys - todo)
        invariant Content() == Plus(before, Sum(done, at))
      {
        var key :| key in todo;
        todo := todo - {key};
        if key !in want {
          Grow(before, done, at, key);
          Append(Presence("volume", have[key].id, key, "existence", false, Warning));
          done := done + {key};
        }
      }
      assert done == want.Keys + have.Keys;
    }

    method ComparePair(i: nat, d: FloatingIP, a: FloatingIP)
      modifies `drifts
      ensures Content() == Plus(old(Content()), PairAt(i, d, a))
    {
      hide Content, Plus, If, Differ, DifferFold, PairName;
      var name := PairName(i, a);
      var address := PairItem(name, a.id, "address", d.address, a.address, Warning);
      var attached := PairItem(name, a.id, "attached_to", d.attachedTo, a.attachedTo, Critical);
      var status := PairItem(name, a.id, "status", d.status, a.status, Warning);
      AppendIf(Differ(d.address, a.address), address);
      AppendIf(Differ(d.attachedTo, a.attachedTo), attached);
      AppendIf(DifferFold(d.status, a.status), status);
      Regroup3(old(Content()), If(Differ(d.address, a.address), address),
               If(Differ(d.attachedTo, a.attachedTo), attached), If(DifferFold(d.status, a.status), status));
    }

    method DetectFloatingIPDrift(desired: seq<FloatingIP>, actual: seq<FloatingIP>, sort: Sorter)
      requires |sort(desired)| == |desired| && |sort(actual)| == |actual|
      modifies `drifts
      ensures Content() == Plus(old(Content()), FloatingIPDrifts(desired, actual, sort))
    {
      hide PairAt, Content, Plus;
      if |desired| == 0 && |actual| == 0 {
        NoItems(Content());
        return;
      }
      ghost var before := Content();
      AppendIf(|desired| != |actual|, CountItem(desired, actual));
      ghost var counted := Content();
      NoItems(counted);
      var want, have := sort(desired), sort(actual);
      var i := 0;
      while i < |want| && i < |have|
        invariant i <= |want| && i <= |have|
        invariant Content() == Plus(counted, Pairs(want, have, i))
      {
        ComparePair(i, want[i], have[i]);
        Regroup(counted, Pairs(want, have, i), PairAt(i, want[i], have[i]));
        i := i + 1;
      }
      Regroup(before, If(|desired| != |actual|, CountItem(desired, actual)), Pairs(want, have, i));
    }

    /** Adds to the counters: the source does not clear them first. */
    method CalculateSummary()
      modifies this
      ensures drifts == old(drifts) && total == |drifts|
      ensures critical == old(critical) + CountSeverity(drifts, Critical)
      ensures warning == old(warning) + CountSeverity(drifts, Warning)
      ensures info == old(info) + CountSeverity(drifts, Info)
      ensures reconcilableCount == old(reconcilableCount) + CountReconcilable(drifts)
      ensures overall == MaxSeverity(drifts)
      ensures reconcilable <==> forall item :: item in drifts ==> item.reconcilable
    {
      hide CountSeverity, CountReconcilable, MaxSeverity;
      total := |drifts|;
      reconcilable := true;
      overall := Info;
      TallyNone();
      for i := 0 to |drifts|
        invariant drifts == old(drifts) && total == |drifts|
        invariant critical == old(critical) + CountSeverity(drifts[..i], Critical)
        invariant warning == old(warning) + CountSeverity(drifts[..i], Warning)
        invariant info == old(info) + CountSeverity(drifts[..i], Info)
        invariant reconcilableCount == old(reconcilableCount) + CountReconcilable(drifts[..i])
        invariant overall == MaxSeverity(drifts[..i])
        invariant reconcilable <==> forall j :: 0 <= j < i ==> drifts[j].reconcilable
      {
        TallyOneMore(drifts, i);
        CountOne(drifts[i]);
      }
      assert drifts[..|drifts|] == drifts;
    }

    method CountOne(drift: DriftItem)
      modifies this
      ensures drifts == old(drifts) && total == old(total)
      ensures critical == old(critical) + if drift.severity == Critical then 1 else 0
      ensures warning == old(warning) + if drift.severity == Warning then 1 else 0
      ensures info == old(info) + if drift.severity == Info then 1 else 0
      ensures reconcilableCount == old(reconcilableCount) + if drift.reconcilable then 1 else 0
      ensures overall == if old(overall).Rank() < drift.severity.Rank() then drift.severity else old(overall)
      ensures reconcilable <==> old(reconcilable) && drift.reconcilable
    {
      match drift.severity {
        case Critical => critical := critical + 1; overall := Critical;
        case Warning =>
          warning := warning + 1;
          if overall.Rank() < Severity.Warning.Rank() { overall := Warning; }
        case Info => info := info + 1;
      }
      if drift.reconcilable { reconcilableCount := reconcilableCount + 1; } else { reconcilable := false; }
    }
  }

  lemma TallyNone()
    ensures forall severity :: CountSeverity([], severity) == 0
    ensures CountReconcilable([]) == 0 && MaxSeverity([]) == Info
  {
  }

  lemma TallyOneMore(items: seq<DriftItem>, i: nat)
    requires i < |items|
    ensures forall severity ::
      CountSeverity(items[..i + 1], severity) ==
      CountSeverity(items[..i], severity) + if items[i].severity == severity then 1 else 0
    ensures CountReconcilable(items[..i + 1]) == CountReconcilable(items[..i]) + if items[i].reconcilable then 1 else 0
    ensures MaxSeverity(items[..i + 1]) ==
      if MaxSeverity(items[..i]).Rank() < items[i].severity.Rank() then items[i].severity else MaxSeverity(items[..i])
  {
    assert items[..i + 1][..i] == items[..i];
  }

  function CountSeverity(items: seq<DriftItem>, severity: Severity): nat {
    if items == [] then 0
    else CountSeverity(items[..|items| - 1], severity) + if items[|items| - 1].severity == severity then 1 else 0
  }

  function CountReconcilable(items: seq<DriftItem>): nat {
    if items == [] then 0
    else CountReconcilable(items[..|items| - 1]) + if items[|items| - 1].reconcilable then 1 else 0
  }

  /** The highest severity present, Info if there is none. */
  function MaxSeverity(items: seq<DriftItem>): (top: Severity)
    ensures forall i :: 0 <= i < |items| ==> items[i].severity.Rank() <= top.Rank()
    ensures top == Info || exists i :: 0 <= i < |items| && items[i].severity == top
  {
    if items == [] then Info
    else
      var before, last := MaxSeverity(items[..|items| - 1]), items[|items| - 1].severity;
      if before.Rank() < last.Rank() then last else before
  }

  const EMPTY := InfrastructureState([], [], [], [], [], [])

  lemma EmptyContent(report: Report)
    requires report.drifts == []
    ensures report.Content() == multiset{}
  {
  }

  lemma Gather(a: Items, b: Items, c: Items, d: Items, e: Items, f: Items)
    ensures Plus(Plus(Plus(Plus(Plus(Plus(multiset{}, a), b), c), d), e), f) ==
      Plus(Plus(Plus(Plus(Plus(a, b), c), d), e), f)
  {
  }

  method CompareInfrastructureState(desired: Option<InfrastructureState>, actual: Option<InfrastructureState>,
                                    sort: Sorter)
    returns (report: Report)
    requires forall ips :: |sort(ips)| == |ips|
    ensures fresh(report)
    ensures var d := if desired.Some? then desired.value else EMPTY;
      var a := if actual.Some? then actual.value else EMPTY;
      report.Content() == AllDrifts(d, a, sort)
    ensures report.total == |report.drifts| == report.critical + report.warning + report.info
    ensures report.critical == CountSeverity(report.drifts, Critical)
    ensures report.warning == CountSeverity(report.drifts, Warning)
    ensures report.info == CountSeverity(report.drifts, Info)
    ensures report.reconcilableCount == CountReconcilable(report.drifts)
    ensures report.overall == MaxSeverity(report.drifts)
    ensures report.reconcilable <==> report.reconcilableCount == report.total
  {
    hide Report.Content, Plus, ServerDrifts, NetworkDrifts, GroupDrifts, BalancerDrifts, VolumeDrifts, FloatingIPDrifts;
    hide CountSeverity, CountReconcilable;
    var d := if desired.Some? then desired.value else EMPTY;
    var a := if actual.Some? then actual.value else EMPTY;
    report := new Report();
    assert report.Content() == multiset{} by { EmptyContent(report); }
    report.DetectServerDrift(d.servers, a.servers);
    report.DetectNetworkDrift(d.networks, a.networks);
    report.DetectSecurityGroupDrift(d.securityGroups, a.securityGroups);
    report.DetectLoadBalancerDrift(d.loadBalancers, a.loadBalancers);
    report.DetectVolumeDrift(d.volumes, a.volumes);
    report.DetectFloatingIPDrift(d.floatingIPs, a.floatingIPs, sort);
    Gather(ServerDrifts(d.servers, a.servers), NetworkDrifts(d.networks, a.networks),
           GroupDrifts(d.securityGroups, a.securityGroups), BalancerDrifts(d.loadBalancers, a.loadBalancers),
           VolumeDrifts(d.volumes, a.volumes), FloatingIPDrifts(d.floatingIPs, a.floatingIPs, sort));
    report.CalculateSummary();
    CountsAddUp(report.drifts);
    AllReconcilable(report.drifts);
  }

  lemma {:induction false} CountsAddUp(items: seq<DriftItem>)
    ensures CountSeverity(items, Critical) + CountSeverity(items, Warning) + CountSeverity(items, Info) == |items|
  {
    if items != [] {
      CountsAddUp(items[..|items| - 1]);
      var severity := items[|items| - 1].severity;
      assert severity == Critical || severity == Warning || severity == Info;
    }
  }

  lemma {:induction false} AllReconcilable(items: seq<DriftItem>)
    ensures CountReconcilable(items) <= |items|
    ensures CountReconcilable(items) == |items| <==> forall item :: item in items ==> item.reconcilable
  {
    if items != [] {
      var n := |items| - 1;
      assert items == items[..n] + [items[n]];
      AllReconcilable(items[..n]);
    }
  }

  // ---------------------------------------------------------------- filtering

  function ParseSeverity(text: string): Option<Severity> {
    if text == "critical" then Some(Critical)
    else if text == "warning" then Some(Warning)
    else if text == "info" then Some(Info)
    else None
  }

  /** The items of one severity, in order. */
  function OfSeverity(items: seq<DriftItem>, severity: Severity): seq<DriftItem> {
    if items == [] then []
    else
      OfSeverity(items[..|items| - 1], severity) +
      if items[|items| - 1].severity == severity then [items[|items| - 1]] else []
  }

  method FilterBySeverity(report: Report, severityText: string) returns (filtered: Report)
    ensures severityText == "critical" ==> filtered.drifts == OfSeverity(report.drifts, Critical)
    ensures severityText == "warning" ==> filtered.drifts == OfSeverity(report.drifts, Warning)
    ensures severityText == "info" ==> filtered.drifts == OfSeverity(report.drifts, Info)
    ensures severityText !in {"critical", "warning", "info"} ==> filtered == report
    ensures ParseSeverity(severityText).None? ==> filtered == report
    ensures ParseSeverity(severityText).Some? ==>
      var severity := ParseSeverity(severityText).value;
      && fresh(filtered)
      && filtered.drifts == OfSeverity(report.drifts, severity)
      && filtered.total == |filtered.drifts|
      && filtered.critical == CountSeverity(filtered.drifts, Critical)
      && filtered.warning == CountSeverity(filtered.drifts, Warning)
      && filtered.info == CountSeverity(filtered.drifts, Info)
      && filtered.reconcilableCount == CountReconcilable(filtered.drifts)
      && filtered.overall == MaxSeverity(filtered.drifts)
      && (filtered.reconcilable <==> forall item :: item in filtered.drifts ==> item.reconcilable)
  {
    hide CountSeverity, CountReconcilable, MaxSeverity;
    var severity;
    match ParseSeverity(severityText) {
      case None => return report;
      case Some(s) => severity := s;
    }
    filtered := new Report();
    for i := 0 to |report.drifts|
      invariant fresh(filtered) && filtered.drifts == OfSeverity(report.drifts[..i], severity)
      invariant filtered.critical == filtered.warning == filtered.info == filtered.reconcilableCount == 0
    {
      assert report.drifts[..i + 1][..i] == report.drifts[..i];
      if report.drifts[i].severity == severity { filtered.drifts := filtered.drifts + [report.drifts[i]]; }
    }
    assert report.drifts[..|report.drifts|] == report.drifts;
    filtered.CalculateSummary();
  }

  /** The three filters split a report, and each agrees with the full summary. */
  lemma {:induction false} FiltersPartition(items: seq<DriftItem>)
    ensures multiset(items) ==
      multiset(OfSeverity(items, Critical)) + multiset(OfSeverity(items, Warning)) + multiset(OfSeverity(items, Info))
    ensures forall severity :: |OfSeverity(items, severity)| == CountSeverity(items, severity)
    ensures forall severity, item :: item in OfSeverity(items, severity) ==> item.severity == severity
  {
    if items != [] {
      var n := |items| - 1;
      assert items == items[..n] + [items[n]];
      FiltersPartition(items[..n]);
      forall severity ensures |OfSeverity(items, severity)| == CountSeverity(items, severity) {}
    }
  }

  /** A filtered report is graded with the filter's severity, unless it is empty. */
  lemma FilterGrades(items: seq<DriftItem>, severity: Severity)
    ensures MaxSeverity(OfSeverity(items, severity)) == if OfSeverity(items, severity) == [] then Info else severity
  {
    FiltersPartition(items);
    var kept := OfSeverity(items, severity);
    forall i | 0 <= i < |kept| ensures kept[i].severity == severity { assert kept[i] in kept; }
  }
}
