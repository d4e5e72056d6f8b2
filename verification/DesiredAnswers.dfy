/** What a cluster configuration asks for, node by node and with every name, tag and port written out. */
module DesiredAnswers {
  import opened Text
  import opened CloudTypes
  import opened DriftSpec
  import opened DriftProofs
  import opened DesiredState

  predicate OnVMware(cfg: Config) {
    ToLower(TrimSpace(cfg.provider)) == "vmware" || ToLower(TrimSpace(cfg.provider)) == "vsphere"
  }

  predicate OnOpenStack(cfg: Config) {
    ToLower(TrimSpace(cfg.provider)) == "openstack"
  }

  /** The image of cluster nodes, which only OpenStack configures. */
  function Image(cfg: Config): string {
    if OnOpenStack(cfg) && cfg.openstack.Some? then cfg.openstack.value.imageID else ""
  }

  function VMwareNetworks(cfg: Config): seq<string> {
    if OnVMware(cfg) && cfg.vmware.Some? && TrimSpace(cfg.vmware.value.network) != ""
    then [TrimSpace(cfg.vmware.value.network)] else []
  }

  function Datastore(cfg: Config): string {
    if OnVMware(cfg) && cfg.vmware.Some? then TrimSpace(cfg.vmware.value.datastore) else ""
  }

  // ---------------------------------------------------------------- servers

  function NodeAt(cfg: Config, prefix: string, i: nat): string {
    cfg.clusterName + "-" + prefix + "-" + Decimal(i + 1)
  }

  predicate IsMaster(cfg: Config, i: nat, s: Server) {
    i < cfg.masterCount
    && s == Server("", NodeAt(cfg, "master", i), if OnVMware(cfg) then "" else cfg.flavorMaster, Image(cfg), "ACTIVE",
                   VMwareNetworks(cfg), map["cluster" := cfg.clusterName, "role" := "control-plane"])
  }

  predicate IsWorker(cfg: Config, i: nat, s: Server) {
    i < cfg.workerCount
    && s == Server("", NodeAt(cfg, "worker", i), if OnVMware(cfg) then "" else cfg.flavorWorker, Image(cfg), "ACTIVE",
                   VMwareNetworks(cfg), map["cluster" := cfg.clusterName, "role" := "worker"])
  }

  predicate IsPoolNode(cfg: Config, p: nat, i: nat, s: Server) {
    p < |cfg.pools| && i < cfg.pools[p].count
    && s == Server("", NodeAt(cfg, cfg.pools[p].name, i), cfg.pools[p].flavor, "", "ACTIVE", [],
                   map["cluster" := cfg.clusterName, "role" := "worker", "os" := "windows",
                       "pool" := cfg.pools[p].name])
  }

  ghost predicate WantedServer(cfg: Config, s: Server) {
    || (exists i: nat :: IsMaster(cfg, i, s)) || (exists i: nat :: IsWorker(cfg, i, s))
    || exists p: nat, i: nat :: IsPoolNode(cfg, p, i, s)
  }

  lemma {:induction false} NodesAreServers(cluster: string, ns: Nodes, n: nat, i: nat)
    requires i < n
    ensures ServerOf(cluster, ns, i) in ServersOf(cluster, ns, n)
  {
    hide ServerOf;
    if i < n - 1 { NodesAreServers(cluster, ns, n - 1, i); }
  }

  lemma {:induction false} AllNodesAreServers(cluster: string, groups: seq<Nodes>, g: nat, i: nat)
    requires g < |groups| && i < Count(groups[g])
    ensures ServerOf(cluster, groups[g], i) in ServersOfAll(cluster, groups)
  {
    hide ServerOf;
    var n := |groups| - 1;
    if g == n {
      NodesAreServers(cluster, groups[n], Count(groups[n]), i);
    } else {
      assert groups[..n][g] == groups[g];
      AllNodesAreServers(cluster, groups[..n], g, i);
    }
  }

  lemma NodeServersAre(cluster: string, groups: seq<Nodes>, s: Server)
    ensures s in ServersOfAll(cluster, groups) <==> NodeServer(cluster, groups, s)
  {
    hide ServerOf;
    if s in ServersOfAll(cluster, groups) { AllServersAreNodes(cluster, groups, s); }
    if NodeServer(cluster, groups, s) {
      var g, i: nat :| 0 <= g < |groups| && i < Count(groups[g]) && s == ServerOf(cluster, groups[g], i);
      AllNodesAreServers(cluster, groups, g, i);
    }
  }

  lemma GroupsAre(cfg: Config)
    ensures var groups := AllNodes(cfg);
      && |groups| == 2 + |cfg.pools|
      && groups[0] == Nodes("master", cfg.masterCount, if OnVMware(cfg) then "" else cfg.flavorMaster, Image(cfg),
                            VMwareNetworks(cfg), map["cluster" := cfg.clusterName, "role" := "control-plane"],
                            Datastore(cfg), if OnVMware(cfg) then 0 else cfg.masterVolumeSize)
      && groups[1] == Nodes("worker", cfg.workerCount, if OnVMware(cfg) then "" else cfg.flavorWorker, Image(cfg),
                            VMwareNetworks(cfg), map["cluster" := cfg.clusterName, "role" := "worker"],
                            Datastore(cfg), if OnVMware(cfg) then 0 else cfg.workerVolumeSize)
      && forall p :: 0 <= p < |cfg.pools| ==>
           groups[2 + p] ==
           Nodes(cfg.pools[p].name, cfg.pools[p].count, cfg.pools[p].flavor, "", [],
                 map["cluster" := cfg.clusterName, "role" := "worker", "os" := "windows",
                     "pool" := cfg.pools[p].name], "", cfg.pools[p].bootSize)
  {
    hide ToLower, TrimSpace;
  }

  lemma ServerAt(cfg: Config, ns: Nodes, i: nat)
    ensures ServerOf(cfg.clusterName, ns, i) ==
      Server("", NodeAt(cfg, ns.prefix, i), ns.flavor, ns.image, "ACTIVE", ns.networks, ns.tags)
  {
    hide Decimal;
  }

  /** The desired servers are the masters, the workers and the nodes of the Windows pools, and no others. */
  lemma ServersExactly(cfg: Config, s: Server)
    ensures s in Desired(cfg).servers <==> WantedServer(cfg, s)
  {
    hide AllNodes, ServersOfAll, VolumesOfAll, Fabric, ServerOf, NodeAt, Image, VMwareNetworks, OnVMware, Datastore;
    var groups := AllNodes(cfg);
    GroupsAre(cfg);
    NodeServersAre(cfg.clusterName, groups, s);
    forall ns, i ensures ServerOf(cfg.clusterName, ns, i) ==
      Server("", NodeAt(cfg, ns.prefix, i), ns.flavor, ns.image, "ACTIVE", ns.networks, ns.tags)
    {
      ServerAt(cfg, ns, i);
    }
    if NodeServer(cfg.clusterName, groups, s) {
      var g, i: nat :| 0 <= g < |groups| && i < Count(groups[g]) && s == ServerOf(cfg.clusterName, groups[g], i);
      assert g == 0 ==> IsMaster(cfg, i, s);
      assert g == 1 ==> IsWorker(cfg, i, s);
      assert g >= 2 ==> IsPoolNode(cfg, g - 2, i, s);
    }
    if i: nat :| IsMaster(cfg, i, s) { assert s == ServerOf(cfg.clusterName, groups[0], i); }
    if i: nat :| IsWorker(cfg, i, s) { assert s == ServerOf(cfg.clusterName, groups[1], i); }
    if p: nat, i: nat :| IsPoolNode(cfg, p, i, s) { assert s == ServerOf(cfg.clusterName, groups[2 + p], i); }
  }

  function AtLeastZero(n: int): nat {
    if n < 0 then 0 else n
  }

  function PoolTotal(pools: seq<Pool>): nat {
    if pools == [] then 0 else PoolTotal(pools[..|pools| - 1]) + AtLeastZero(pools[|pools| - 1].count)
  }

  lemma {:induction false} ServersCounted(cluster: string, ns: Nodes, n: nat)
    ensures |ServersOf(cluster, ns, n)| == n
  {
    hide ServerOf;
    if n > 0 { ServersCounted(cluster, ns, n - 1); }
  }

  lemma {:induction false} GroupsCounted(cluster: string, groups: seq<Nodes>, pools: seq<Pool>)
    requires |groups| == 2 + |pools| && forall p :: 0 <= p < |pools| ==> groups[2 + p].count == pools[p].count
    ensures |ServersOfAll(cluster, groups)| ==
      AtLeastZero(groups[0].count) + AtLeastZero(groups[1].count) + PoolTotal(pools)
    decreases |pools|
  {
    hide ServersOf;
    var n := |groups| - 1;
    ServersCounted(cluster, groups[n], Count(groups[n]));
    if pools == [] {
      ServersCounted(cluster, groups[0], Count(groups[0]));
      assert groups[..1][..0] == [];
      var first := groups[0];
      assert ServersOfAll(cluster, groups[..1]) == ServersOfAll(cluster, []) + ServersOf(cluster, first, Count(first));
    } else {
      GroupsCounted(cluster, groups[..n], pools[..|pools| - 1]);
    }
  }

  /** There is one server for each of them. */
  lemma ServersAreCounted(cfg: Config)
    ensures |Desired(cfg).servers| ==
      AtLeastZero(cfg.masterCount) + AtLeastZero(cfg.workerCount) + PoolTotal(cfg.pools)
  {
    hide AllNodes, ServersOfAll, VolumesOfAll, Fabric, Image, VMwareNetworks, OnVMware, Datastore;
    GroupsAre(cfg);
    GroupsCounted(cfg.clusterName, AllNodes(cfg), cfg.pools);
  }

  // ---------------------------------------------------------------- volumes

  /** On a datastore, a volume with its name; otherwise a boot volume of the size, if any, attached to the node. */
  predicate VolumeOfNode(datastore: string, size: int, name: string, v: Volume) {
    if datastore != "" then v == Volume("", name + "@" + datastore, 0, "in-use", "")
    else size > 0 && v == Volume("", name + "-boot", size, "in-use", name)
  }

  predicate MasterVolume(cfg: Config, i: nat, v: Volume) {
    i < cfg.masterCount
    && VolumeOfNode(Datastore(cfg), if OnVMware(cfg) then 0 else cfg.masterVolumeSize, NodeAt(cfg, "master", i), v)
  }

  predicate WorkerVolume(cfg: Config, i: nat, v: Volume) {
    i < cfg.workerCount
    && VolumeOfNode(Datastore(cfg), if OnVMware(cfg) then 0 else cfg.workerVolumeSize, NodeAt(cfg, "worker", i), v)
  }

  predicate PoolVolume(cfg: Config, p: nat, i: nat, v: Volume) {
    p < |cfg.pools| && i < cfg.pools[p].count
    && VolumeOfNode("", cfg.pools[p].bootSize, NodeAt(cfg, cfg.pools[p].name, i), v)
  }

  ghost predicate WantedVolume(cfg: Config, v: Volume) {
    || (exists i: nat :: MasterVolume(cfg, i, v)) || (exists i: nat :: WorkerVolume(cfg, i, v))
    || exists p: nat, i: nat :: PoolVolume(cfg, p, i, v)
  }

  lemma VolumeAt(cfg: Config, ns: Nodes, i: nat, v: Volume)
    ensures v in VolumesOf(cfg.clusterName, ns, i) <==>
      VolumeOfNode(ns.datastore, ns.bootSize, NodeAt(cfg, ns.prefix, i), v)
  {
    hide Decimal;
  }

  lemma {:induction false} VolumesOfOne(cfg: Config, ns: Nodes, n: nat, v: Volume)
    ensures v in VolumesUpTo(cfg.clusterName, ns, n) <==>
      exists i: nat :: i < n && VolumeOfNode(ns.datastore, ns.bootSize, NodeAt(cfg, ns.prefix, i), v)
  {
    hide VolumesOf, VolumeOfNode, NodeAt;
    if n > 0 {
      VolumesOfOne(cfg, ns, n - 1, v);
      VolumeAt(cfg, ns, n - 1, v);
    }
  }

  lemma {:induction false} VolumesOfGroups(cfg: Config, groups: seq<Nodes>, v: Volume)
    ensures v in VolumesOfAll(cfg.clusterName, groups) <==>
      exists g: nat, i: nat :: g < |groups| && i < Count(groups[g])
        && VolumeOfNode(groups[g].datastore, groups[g].bootSize, NodeAt(cfg, groups[g].prefix, i), v)
  {
    hide VolumesUpTo, VolumeOfNode, NodeAt, Count;
    if groups != [] {
      var n := |groups| - 1;
      var init, last := groups[..n], groups[n];
      VolumesOfGroups(cfg, init, v);
      VolumesOfOne(cfg, last, Count(last), v);
      assert forall g :: 0 <= g < n ==> init[g] == groups[g];
      if v in VolumesUpTo(cfg.clusterName, last, Count(last)) {
        var i: nat :| i < Count(last) && VolumeOfNode(last.datastore, last.bootSize, NodeAt(cfg, last.prefix, i), v);
        assert groups[n] == last;
      }
    }
  }

  /** The desired volumes are those of these nodes, and no others. */
  lemma VolumesExactly(cfg: Config, v: Volume)
    ensures v in Desired(cfg).volumes <==> WantedVolume(cfg, v)
  {
    hide AllNodes, ServersOfAll, VolumesOfAll, Fabric, NodeAt, Image, VMwareNetworks, OnVMware, Datastore, VolumeOfNode;
    var groups := AllNodes(cfg);
    GroupsAre(cfg);
    VolumesOfGroups(cfg, groups, v);
    if v in VolumesOfAll(cfg.clusterName, groups) {
      var g: nat, i: nat :| g < |groups| && i < Count(groups[g])
        && VolumeOfNode(groups[g].datastore, groups[g].bootSize, NodeAt(cfg, groups[g].prefix, i), v);
      assert g == 0 ==> MasterVolume(cfg, i, v);
      assert g == 1 ==> WorkerVolume(cfg, i, v);
      assert g >= 2 ==> PoolVolume(cfg, g - 2, i, v);
    }
    if i: nat :| MasterVolume(cfg, i, v) { assert i < Count(groups[0]); }
    if i: nat :| WorkerVolume(cfg, i, v) { assert i < Count(groups[1]); }
    if p: nat, i: nat :| PoolVolume(cfg, p, i, v) { assert i < Count(groups[2 + p]); }
  }

  // ---------------------------------------------------------------- everything around the nodes

  /** The one network with the one subnet of the nodes, on OpenStack under its configured ID. */
  function NodeNetwork(cfg: Config, networkID: string, subnetID: string): Network {
    Network(networkID, if networkID != "" then networkID else cfg.clusterName + "-network", "",
            [Subnet(subnetID, cfg.clusterName + "-subnet-nodes", cfg.subnetNodes)])
  }

  /** A setting of the OpenStack section, or else of its networking part. */
  function Setting(direct: string, nested: string): string {
    if TrimSpace(direct) != "" then TrimSpace(direct) else TrimSpace(nested)
  }

  const NO_NETWORKING := OpenStackNetworking("", "", "", [])
  const NO_OPENSTACK := OpenStack("", "", "", "", false, None)

  /** On OpenStack: the network, two groups of which the first opens the API port, and a balancer or a floating IP. */
  lemma OpenStackFabricExactly(cfg: Config)
    requires OnOpenStack(cfg)
    ensures var os := if cfg.openstack.Some? then cfg.openstack.value else NO_OPENSTACK;
      var net := if os.networking.Some? then os.networking.value else NO_NETWORKING;
      var octavia := cfg.useOctavia || os.useOctavia;
      var d := Desired(cfg);
      && d.networks == [NodeNetwork(cfg, Setting(os.networkID, net.networkID), Setting(os.subnetID, net.subnetID))]
      && |d.securityGroups| == 2
      && d.securityGroups[0].(rules := []) == SecurityGroup("", cfg.clusterName + "-control-plane-sg", [])
      && |d.securityGroups[0].rules| == |net.apiAcl|
      && (forall i :: 0 <= i < |net.apiAcl| ==>
            d.securityGroups[0].rules[i] == SecurityRule("", "ingress", "tcp", "6443", net.apiAcl[i], ""))
      && d.securityGroups[1] == SecurityGroup("", cfg.clusterName + "-worker-sg", [])
      && d.loadBalancers ==
        (if cfg.loadBalancerProvider == "ovn" || cfg.loadBalancerProvider == "octavia" || octavia
         then [LoadBalancer("", cfg.clusterName + "-api", "", [], "TCP", 6443)] else [])
      && d.floatingIPs ==
        if !octavia && cfg.loadBalancerProvider != "octavia" && Setting(os.floatingIPPool, net.floatingIPPool) != ""
        then [FloatingIP("cluster-api", "", "ACTIVE", "")] else []
  {
    hide ToLower, TrimSpace, AllNodes, ServersOfAll, VolumesOfAll;
  }

  /** Elsewhere there is at most a network. */
  lemma OtherFabricExactly(cfg: Config)
    requires !OnOpenStack(cfg)
    ensures var d := Desired(cfg);
      && d.securityGroups == [] && d.loadBalancers == [] && d.floatingIPs == []
      && d.networks ==
        if !OnVMware(cfg) then [NodeNetwork(cfg, "", "")]
        else if VMwareNetworks(cfg) == [] then [] else [Network("", VMwareNetworks(cfg)[0], "", [])]
  {
    hide ToLower, TrimSpace, AllNodes, ServersOfAll, VolumesOfAll;
  }

  // ---------------------------------------------------------------- a desired state in any order

  lemma SuffixOff(a: string, b: string, suffix: string)
    requires a + suffix == b + suffix
    ensures a == b
  {
    assert a == (a + suffix)[..|a|] && b == (b + suffix)[..|b|];
  }

  /** A key tells the node, by name, as long as there is one datastore. */
  lemma KeyTellsNode(datastore: string, size: int, name: string, v: Volume, store: string, other: int, node: string,
                     w: Volume)
    requires VolumeOfNode(datastore, size, name, v) && VolumeOfNode(store, other, node, w)
    requires VolumeKey(v) == VolumeKey(w) && name != "" && node != ""
    requires datastore == store || datastore == "" || store == ""
    ensures name == node && datastore == store
  {
    VolumeKeysTellAttachment(v, w);
    if datastore != "" && store != "" {
      assert v.name == VolumeKey(v)[5..] && w.name == VolumeKey(w)[5..];
      assert name + "@" + datastore == name + ("@" + datastore) && node + "@" + datastore == node + ("@" + datastore);
      SuffixOff(name, node, "@" + datastore);
    }
  }

  lemma NodesAreNamed(cfg: Config, prefix: string, i: nat)
    ensures NodeAt(cfg, prefix, i) == NodeName(cfg.clusterName, prefix, i) != ""
  {
    hide Decimal;
  }

  lemma OneDatastore(cfg: Config, g: nat)
    requires g < |AllNodes(cfg)|
    ensures AllNodes(cfg)[g].datastore == Datastore(cfg) || AllNodes(cfg)[g].datastore == ""
  {
    hide AllNodes, Image, VMwareNetworks, OnVMware, Datastore;
    GroupsAre(cfg);
    var groups := AllNodes(cfg);
    if g >= 2 {
      var p := g - 2;
      assert groups[2 + p].prefix == cfg.pools[p].name;
    } else {
      assert groups[0].datastore == Datastore(cfg) == groups[1].datastore;
    }
  }

  lemma SameKeySameVolume(cfg: Config, v: Volume, w: Volume)
    requires DistinctPools(cfg) && v in Desired(cfg).volumes && w in Desired(cfg).volumes
    requires VolumeKey(v) == VolumeKey(w)
    ensures v == w
  {
    hide AllNodes, ServersOfAll, VolumesOfAll, Fabric, NodeAt, NodeName, DistinctPools, Datastore, VolumeKey;
    var groups := AllNodes(cfg);
    VolumesOfGroups(cfg, groups, v);
    VolumesOfGroups(cfg, groups, w);
    var g: nat, i: nat :| g < |groups| && i < Count(groups[g])
      && VolumeOfNode(groups[g].datastore, groups[g].bootSize, NodeAt(cfg, groups[g].prefix, i), v);
    var h: nat, j: nat :| h < |groups| && j < Count(groups[h])
      && VolumeOfNode(groups[h].datastore, groups[h].bootSize, NodeAt(cfg, groups[h].prefix, j), w);
    NodesAreNamed(cfg, groups[g].prefix, i);
    NodesAreNamed(cfg, groups[h].prefix, j);
    OneDatastore(cfg, g);
    OneDatastore(cfg, h);
    KeyTellsNode(groups[g].datastore, groups[g].bootSize, NodeAt(cfg, groups[g].prefix, i), v, groups[h].datastore,
                 groups[h].bootSize, NodeAt(cfg, groups[h].prefix, j), w);
    NodeNameInjective(cfg.clusterName, groups[g].prefix, i, groups[h].prefix, j);
    PrefixesDiffer(cfg, g, h);
  }

  lemma FewAround(cfg: Config)
    ensures var d := Desired(cfg);
      && |d.networks| <= 1 && |d.loadBalancers| <= 1 && |d.floatingIPs| <= 1
      && KeysIdentify(d.securityGroups, GroupKey)
  {
    hide ToLower, TrimSpace, AllNodes, ServersOfAll, VolumesOfAll;
    assert |cfg.clusterName + "-control-plane-sg"| != |cfg.clusterName + "-worker-sg"|;
  }

  /** With distinct pool names a desired state names every resource once. */
  lemma DesiredIsWellKeyed(cfg: Config)
    requires DistinctPools(cfg)
    ensures WellKeyed(Desired(cfg))
  {
    hide Desired, DistinctPools, VolumeKey;
    DesiredServersAreKeyed(cfg);
    FewAround(cfg);
    var d := Desired(cfg);
    forall v, w | v in d.volumes && w in d.volumes && VolumeKey(v) == VolumeKey(w) ensures v == w {
      SameKeySameVolume(cfg, v, w);
    }
  }

  /** So it compares clean against itself in any order, inner lists included. */
  lemma DesiredComparesCleanInAnyOrder(cfg: Config, state: InfrastructureState, sort: Sorter)
    requires DistinctPools(cfg) && SortsByKey(sort) && Reordered(Desired(cfg), state)
    ensures AllDrifts(Desired(cfg), state, sort) == multiset{}
  {
    hide Desired, AllDrifts, AllActive, SortsByKey, Reordered, WellKeyed;
    DesiredIsWellKeyed(cfg);
    DesiredStateComparesClean(cfg, sort);
    CleanAgainstItself(Desired(cfg), sort);
    CleanAgainstReordering(Desired(cfg), state, sort);
  }
}
