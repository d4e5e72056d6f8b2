/** The state a cluster configuration asks for: buildDesiredState in cmd/cluster_drift.go. */
module DesiredState {
  import opened Text
  import opened CloudTypes
  import opened DriftSpec
  import opened DriftProofs

  datatype Pool = Pool(name: string, count: int, flavor: string, bootSize: int)

  datatype OpenStackNetworking = OpenStackNetworking(networkID: string, subnetID: string, floatingIPPool: string,
                                                     apiAcl: seq<string>)

  datatype OpenStack = OpenStack(imageID: string, networkID: string, subnetID: string, floatingIPPool: string,
                                 useOctavia: bool, networking: Option<OpenStackNetworking>)

  datatype VMware = VMware(network: string, datastore: string)

  datatype Config = Config(
    provider: string, clusterName: string, masterCount: int, workerCount: int, flavorMaster: string,
    flavorWorker: string,
    masterVolumeSize: int, workerVolumeSize: int, pools: seq<Pool>, useOctavia: bool, loadBalancerProvider: string,
    subnetNodes: string, openstack: Option<OpenStack>, vmware: Option<VMware>)

  function CanonicalProvider(provider: string): string {
    var p := ToLower(TrimSpace(provider));
    if p == "vsphere" then "vmware" else p
  }

  function NodeName(cluster: string, prefix: string, i: nat): string {
    cluster + "-" + prefix + "-" + Decimal(i + 1)
  }

  /** A run of nodes: how many, under which name, with which server and volume for each. */
  datatype Nodes = Nodes(prefix: string, count: int, flavor: string, image: string, networks: seq<string>,
                         tags: map<string, string>, datastore: string, bootSize: int)

  function ServerOf(cluster: string, ns: Nodes, i: nat): Server {
    Server("", NodeName(cluster, ns.prefix, i), ns.flavor, ns.image, "ACTIVE", ns.networks, ns.tags)
  }

  function VolumesOf(cluster: string, ns: Nodes, i: nat): seq<Volume> {
    var name := NodeName(cluster, ns.prefix, i);
    if ns.datastore != "" then [Volume("", name + "@" + ns.datastore, 0, "in-use", "")]
    else if ns.bootSize > 0 then [Volume("", name + "-boot", ns.bootSize, "in-use", name)]
    else []
  }

  function ClusterNodes(cfg: Config): seq<Nodes> {
    var vm := CanonicalProvider(cfg.provider) == "vmware";
    var network := if vm && cfg.vmware.Some? then TrimSpace(cfg.vmware.value.network) else "";
    var datastore := if vm && cfg.vmware.Some? then TrimSpace(cfg.vmware.value.datastore) else "";
    var openStack := CanonicalProvider(cfg.provider) == "openstack" && cfg.openstack.Some?;
    var image := if openStack then cfg.openstack.value.imageID else "";
    var networks := if network != "" then [network] else [];
    var master := map["cluster" := cfg.clusterName, "role" := "control-plane"];
    var worker := map["cluster" := cfg.clusterName, "role" := "worker"];
    if vm then
      [Nodes("master", cfg.masterCount, "", "", networks, master, datastore, 0),
       Nodes("worker", cfg.workerCount, "", "", networks, worker, datastore, 0)]
    else
      [Nodes("master", cfg.masterCount, cfg.flavorMaster, image, [], master, "", cfg.masterVolumeSize),
       Nodes("worker", cfg.workerCount, cfg.flavorWorker, image, [], worker, "", cfg.workerVolumeSize)]
  }

  function PoolNodes(cfg: Config, pool: Pool): Nodes {
    Nodes(pool.name, pool.count, pool.flavor, "", [],
          map["cluster" := cfg.clusterName, "role" := "worker", "os" := "windows", "pool" := pool.name],
          "", pool.bootSize)
  }

  class Builder {
    const cluster: string
    var servers: seq<Server>
    var volumes: seq<Volume>
    var networks: seq<Network>
    var securityGroups: seq<SecurityGroup>
    var loadBalancers: seq<LoadBalancer>
    var floatingIPs: seq<FloatingIP>

    constructor (cluster: string)
      ensures this.cluster == cluster && servers == [] && volumes == [] && networks == []
      ensures securityGroups == [] && loadBalancers == [] && floatingIPs == []
    {
      this.cluster := cluster;
      servers, volumes, networks, securityGroups, loadBalancers, floatingIPs := [], [], [], [], [], [];
    }

    method AddNodes(ns: Nodes)
      modifies `servers, `volumes
      ensures servers == old(servers) + ServersOf(cluster, ns, Count(ns))
      ensures volumes == old(volumes) + VolumesUpTo(cluster, ns, Count(ns))
    {
      for i := 0 to Count(ns)
        invariant servers == old(servers) + ServersOf(cluster, ns, i)
        invariant volumes == old(volumes) + VolumesUpTo(cluster, ns, i)
      {
        servers := servers + [ServerOf(cluster, ns, i)];
        volumes := volumes + VolumesOf(cluster, ns, i);
      }
    }
  }

  function Count(ns: Nodes): nat { if ns.count < 0 then 0 else ns.count }

  function ServersOf(cluster: string, ns: Nodes, n: nat): seq<Server> {
    if n == 0 then [] else ServersOf(cluster, ns, n - 1) + [ServerOf(cluster, ns, n - 1)]
  }

  function VolumesUpTo(cluster: string, ns: Nodes, n: nat): seq<Volume> {
    if n == 0 then [] else VolumesUpTo(cluster, ns, n - 1) + VolumesOf(cluster, ns, n - 1)
  }

  function AllNodes(cfg: Config): seq<Nodes> {
    ClusterNodes(cfg) + seq(|cfg.pools|, i requires 0 <= i < |cfg.pools| => PoolNodes(cfg, cfg.pools[i]))
  }

  function ServersOfAll(cluster: string, groups: seq<Nodes>): seq<Server> {
    if groups == [] then []
    else
      var last := groups[|groups| - 1];
      ServersOfAll(cluster, groups[..|groups| - 1]) + ServersOf(cluster, last, Count(last))
  }

  function VolumesOfAll(cluster: string, groups: seq<Nodes>): seq<Volume> {
    if groups == [] then []
    else
      var last := groups[|groups| - 1];
      VolumesOfAll(cluster, groups[..|groups| - 1]) + VolumesUpTo(cluster, last, Count(last))
  }

  function SubnetOf(cfg: Config, id: string): Subnet {
    Subnet(id, cfg.clusterName + "-subnet-nodes", cfg.subnetNodes)
  }

  const NO_FABRIC := InfrastructureState([], [], [], [], [], [])

  function OpenStackFabric(cfg: Config, networkID: string, subnetID: string, pool: string, octavia: bool,
                           acl: seq<string>)
    : InfrastructureState
  {
    NO_FABRIC.(
      networks := [Network(networkID, FirstOf(networkID, cfg.clusterName + "-network"), "", [SubnetOf(cfg, subnetID)])],
      securityGroups := [
        SecurityGroup("", cfg.clusterName + "-control-plane-sg",
                      seq(|acl|, i requires 0 <= i < |acl| => SecurityRule("", "ingress", "tcp", "6443", acl[i], ""))),
        SecurityGroup("", cfg.clusterName + "-worker-sg", [])],
      loadBalancers :=
        if cfg.loadBalancerProvider == "ovn" || cfg.loadBalancerProvider == "octavia" || octavia
        then [LoadBalancer("", cfg.clusterName + "-api", "", [], "TCP", 6443)] else [],
      floatingIPs :=
        if !octavia && cfg.loadBalancerProvider != "octavia" && pool != ""
        then [FloatingIP("cluster-api", "", "ACTIVE", "")] else [])
  }

  /** The networks, groups, balancers and floating IPs, by provider. */
  function Fabric(cfg: Config): InfrastructureState {
    var provider := CanonicalProvider(cfg.provider);
    if provider == "openstack" then
      var os := if cfg.openstack.Some? then cfg.openstack.value else OpenStack("", "", "", "", false, None);
      var net := if os.networking.Some? then os.networking.value else OpenStackNetworking("", "", "", []);
      OpenStackFabric(cfg,
                      FirstOf(TrimSpace(os.networkID), TrimSpace(net.networkID)),
                      FirstOf(TrimSpace(os.subnetID), TrimSpace(net.subnetID)),
                      FirstOf(TrimSpace(os.floatingIPPool), TrimSpace(net.floatingIPPool)),
                      cfg.useOctavia || os.useOctavia, net.apiAcl)
    else if provider == "vmware" then
      var network := if cfg.vmware.Some? then TrimSpace(cfg.vmware.value.network) else "";
      if network == "" then NO_FABRIC else NO_FABRIC.(networks := [Network("", network, "", [])])
    else
      NO_FABRIC.(networks := [Network("", cfg.clusterName + "-network", "", [SubnetOf(cfg, "")])])
  }

  function Desired(cfg: Config): InfrastructureState {
    Fabric(cfg).(servers := ServersOfAll(cfg.clusterName, AllNodes(cfg)),
                 volumes := VolumesOfAll(cfg.clusterName, AllNodes(cfg)))
  }

  method BuildDesiredState(cfg: Config) returns (state: InfrastructureState)
    ensures state == Desired(cfg)
  {
    hide Fabric, ClusterNodes, PoolNodes, ServersOf, VolumesUpTo;
    var builder := new Builder(cfg.clusterName);
    var groups := AllNodes(cfg);
    for i := 0 to |groups|
      invariant builder.cluster == cfg.clusterName
      invariant builder.servers == ServersOfAll(cfg.clusterName, groups[..i])
      invariant builder.volumes == VolumesOfAll(cfg.clusterName, groups[..i])
    {
      assert groups[..i + 1][..i] == groups[..i];
      builder.AddNodes(groups[i]);
    }
    assert groups[..|groups|] == groups;
    return Fabric(cfg).(servers := builder.servers, volumes := builder.volumes);
  }

  // ---------------------------------------------------------------- what holds of every desired state

  predicate NodeServer(cluster: string, groups: seq<Nodes>, s: Server) {
    exists g, i: nat | 0 <= g < |groups| && i < Count(groups[g]) :: s == ServerOf(cluster, groups[g], i)
  }

  lemma {:induction false} ServersAreNodes(cluster: string, ns: Nodes, n: nat, s: Server)
    requires s in ServersOf(cluster, ns, n)
    ensures exists i: nat :: i < n && s == ServerOf(cluster, ns, i)
  {
    if s != ServerOf(cluster, ns, n - 1) { ServersAreNodes(cluster, ns, n - 1, s); }
  }

  lemma {:induction false} AllServersAreNodes(cluster: string, groups: seq<Nodes>, s: Server)
    requires s in ServersOfAll(cluster, groups)
    ensures NodeServer(cluster, groups, s)
  {
    var n := |groups| - 1;
    if s in ServersOfAll(cluster, groups[..n]) {
      AllServersAreNodes(cluster, groups[..n], s);
      var g, i: nat :| 0 <= g < n && i < Count(groups[..n][g]) && s == ServerOf(cluster, groups[..n][g], i);
      assert groups[..n][g] == groups[g];
    } else {
      ServersAreNodes(cluster, groups[n], Count(groups[n]), s);
    }
  }

  lemma KeptIsListed(servers: seq<Server>)
    ensures forall k :: k in ByKey(servers, ServerKey) ==> ByKey(servers, ServerKey)[k] in servers
  {
  }

  /** Every desired state asks only for active servers, so it compares clean against itself. */
  lemma DesiredStateComparesClean(cfg: Config, sort: Sorter)
    ensures AllDrifts(Desired(cfg), Desired(cfg), sort) == multiset{}
  {
    hide AllDrifts, Fabric, AllNodes, ServersOfAll, VolumesOfAll;
    var servers := Desired(cfg).servers;
    forall s | s in servers ensures !StatusBad(s) {
      AllServersAreNodes(cfg.clusterName, AllNodes(cfg), s);
    }
    KeptIsListed(servers);
    CleanAgainstItself(Desired(cfg), sort);
  }

  /** A node name determines its prefix and its number. */
  lemma NodeNameInjective(cluster: string, p: string, i: nat, q: string, j: nat)
    requires NodeName(cluster, p, i) == NodeName(cluster, q, j)
    ensures p == q && i == j
  {
    hide Decimal;
    var s, a, b := NodeName(cluster, p, i), Decimal(i + 1), Decimal(j + 1);
    var m, n := |s| - |a|, |s| - |b|;
    assert s[m..] == a && s[n..] == b && s[m - 1] == '-' && s[n - 1] == '-';
    assert forall k :: m <= k < |s| ==> s[k] == a[k - m];
    assert forall k :: n <= k < |s| ==> s[k] == b[k - n];
    assert m == n;
    DigitsOfDecimal(i + 1);
    DigitsOfDecimal(j + 1);
    assert s[..m - 1] == cluster + "-" + p && s[..n - 1] == cluster + "-" + q;
    assert p == s[..m - 1][|cluster| + 1..] && q == s[..m - 1][|cluster| + 1..];
  }

  /** No two pools have one name, and none is called like the masters or the workers. */
  predicate DistinctPools(cfg: Config) {
    && (forall p :: 0 <= p < |cfg.pools| ==> cfg.pools[p].name != "master" && cfg.pools[p].name != "worker")
    && forall p, q :: 0 <= p < q < |cfg.pools| ==> cfg.pools[p].name != cfg.pools[q].name
  }

  lemma PrefixesDiffer(cfg: Config, g: nat, h: nat)
    requires DistinctPools(cfg) && g < |AllNodes(cfg)| && h < |AllNodes(cfg)|
    ensures AllNodes(cfg)[g].prefix == AllNodes(cfg)[h].prefix ==> g == h
  {
    hide AllNodes;
    PrefixAt(cfg, g);
    PrefixAt(cfg, h);
  }

  lemma PrefixAt(cfg: Config, g: nat)
    requires g < |AllNodes(cfg)|
    ensures |AllNodes(cfg)| == 2 + |cfg.pools|
    ensures AllNodes(cfg)[g].prefix == if g == 0 then "master" else if g == 1 then "worker" else cfg.pools[g - 2].name
  {
    hide CanonicalProvider, TrimSpace;
    var cluster := ClusterNodes(cfg);
    assert |cluster| == 2 && cluster[0].prefix == "master" && cluster[1].prefix == "worker";
  }

  /** With distinct pool names no two desired servers share a key. */
  lemma DesiredServersAreKeyed(cfg: Config)
    requires DistinctPools(cfg)
    ensures KeysIdentify(Desired(cfg).servers, ServerKey)
  {
    hide Fabric, AllNodes, ServersOfAll, VolumesOfAll, NodeName, DistinctPools;
    var groups, servers := AllNodes(cfg), Desired(cfg).servers;
    forall x, y | x in servers && y in servers && ServerKey(x) == ServerKey(y) && ServerKey(x) != "" ensures x == y {
      AllServersAreNodes(cfg.clusterName, groups, x);
      AllServersAreNodes(cfg.clusterName, groups, y);
      var g, i: nat :| 0 <= g < |groups| && i < Count(groups[g]) && x == ServerOf(cfg.clusterName, groups[g], i);
      var h, j: nat :| 0 <= h < |groups| && j < Count(groups[h]) && y == ServerOf(cfg.clusterName, groups[h], j);
      NodeNameInjective(cfg.clusterName, groups[g].prefix, i, groups[h].prefix, j);
      PrefixesDiffer(cfg, g, h);
    }
  }
}
