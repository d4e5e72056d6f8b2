/** The inventory of a state with every key, role and place written out. */
module InventoryAnswers {
  import opened Text
  import opened InventorySpec
  import opened Inventory
  import opened InventoryProofs

  // ---------------------------------------------------------------- one node map

  /** The trimmed text under a key, if there is one. */
  function Str(m: Attrs, key: string): string {
    if key in m && m[key].Text? then TrimSpace(m[key].text) else ""
  }

  predicate IsNodeMap(m: Attrs) {
    || "name" in m || "id" in m || "hostname" in m
    || "access_ip_v4" in m || "internal_ip" in m || "fixed_ip" in m || "ip" in m || "private_ip" in m || "address" in m
    || "external_ip" in m || "floating_ip" in m || "public_ip" in m
  }

  /** The node that a map describes: a name, an internal and an external address, each the first that is given. */
  predicate NodeOf(m: Attrs, role: string, node: Node) {
    var name := FirstNonEmpty([Str(m, "name"), Str(m, "id"), Str(m, "hostname")]);
    var internalIP := FirstNonEmpty([Str(m, "access_ip_v4"), Str(m, "internal_ip"), Str(m, "fixed_ip"), Str(m, "ip"),
                                     Str(m, "private_ip"), Str(m, "address")]);
    var externalIP := FirstNonEmpty([Str(m, "external_ip"), Str(m, "floating_ip"), Str(m, "public_ip")]);
    && (name != "" || internalIP != "" || externalIP != "")
    && node == Node(if name != "" then name else internalIP, role, internalIP, externalIP, "opentofu_state")
  }

  lemma StrIs(m: Attrs, key: string)
    ensures StringValue(At(m, key)) == Str(m, key)
  {
  }

  lemma ThreeCandidates(m: Attrs, a: string, b: string, c: string)
    ensures Candidates(m, [a, b, c]) == [Str(m, a), Str(m, b), Str(m, c)]
  {
    hide StringValue, At, Str;
    StrIs(m, a); StrIs(m, b); StrIs(m, c);
    assert [a, b, c][1..] == [b, c] && [b, c][1..] == [c] && [c][1..] == [];
    assert Candidates(m, [c]) == [Str(m, c)] && Candidates(m, [b, c]) == [Str(m, b), Str(m, c)];
  }

  lemma SixCandidates(m: Attrs, a: string, b: string, c: string, d: string, e: string, f: string)
    ensures Candidates(m, [a, b, c, d, e, f]) ==
      [Str(m, a), Str(m, b), Str(m, c), Str(m, d), Str(m, e), Str(m, f)]
  {
    hide StringValue, At, Str;
    StrIs(m, a); StrIs(m, b); StrIs(m, c);
    ThreeCandidates(m, d, e, f);
    assert [a, b, c, d, e, f][1..] == [b, c, d, e, f] && [b, c, d, e, f][1..] == [c, d, e, f];
    assert [c, d, e, f][1..] == [d, e, f];
    assert Candidates(m, [c, d, e, f]) == [Str(m, c)] + [Str(m, d), Str(m, e), Str(m, f)];
    assert Candidates(m, [b, c, d, e, f]) == [Str(m, b)] + [Str(m, c), Str(m, d), Str(m, e), Str(m, f)];
  }

  lemma NodeOfMap(m: Attrs, role: string, node: Node)
    ensures NodeOf(m, role, node) <==> NodeFromMap(m, role) == Some(node)
  {
    hide FirstNonEmpty, Candidates, Str, FirstString;
    NodeHasFirstCandidates(m, role);
    ThreeCandidates(m, "name", "id", "hostname");
    SixCandidates(m, "access_ip_v4", "internal_ip", "fixed_ip", "ip", "private_ip", "address");
    ThreeCandidates(m, "external_ip", "floating_ip", "public_ip");
  }

  lemma NodeMapLooks(m: Attrs)
    ensures IsNodeMap(m) <==> LooksLikeNodeMap(m)
  {
    var all := NAME_KEYS + INTERNAL_KEYS + EXTERNAL_KEYS;
    assert all == ["name", "id", "hostname", "access_ip_v4", "internal_ip", "fixed_ip", "ip", "private_ip", "address",
      "external_ip", "floating_ip", "public_ip"];
    forall k ensures k in all <==> k in {"name", "id", "hostname", "access_ip_v4", "internal_ip", "fixed_ip", "ip",
      "private_ip", "address", "external_ip", "floating_ip", "public_ip"}
    {
      assert k in all <==> exists i :: 0 <= i < 12 && all[i] == k;
    }
  }

  /** A node map is somewhere in the value, not inside another one, and describes this node. */
  predicate Holds(raw: Value, role: string, node: Node)
    decreases raw
  {
    match raw
    case List(items) => exists i :: 0 <= i < |items| && Holds(items[i], role, node)
    case Fields(m) => if IsNodeMap(m) then NodeOf(m, role, node) else exists k :: k in m && Holds(m[k], role, node)
    case _ => false
  }

  lemma {:induction false} HoldsIsGives(raw: Value, role: string, node: Node)
    ensures Holds(raw, role, node) <==> Gives(raw, role, node)
    decreases raw
  {
    hide NodeOf, IsNodeMap, LooksLikeNodeMap, NodeFromMap;
    match raw
    case List(items) =>
      forall i | 0 <= i < |items| { HoldsIsGives(items[i], role, node); }
    case Fields(m) =>
      NodeMapLooks(m);
      NodeOfMap(m, role, node);
      forall k | k in m { HoldsIsGives(m[k], role, node); }
    case _ =>
  }

  // ---------------------------------------------------------------- one values map

  /** What is under a key, out of the wrapping that outputs have. */
  function Unwrapped(m: Attrs, key: string): Value {
    if key !in m then Null
    else if m[key].Fields? && "value" in m[key].fields then m[key].fields["value"]
    else m[key]
  }

  /** The map lists this node, under the key that gives it its role. */
  predicate Lists(m: Attrs, node: Node) {
    || Holds(Unwrapped(m, "master_nodes"), "controller", node)
    || Holds(Unwrapped(m, "worker_nodes"), "worker", node)
    || Holds(Unwrapped(m, "additional_worker_pools_nodes"), "worker", node)
    || Holds(Unwrapped(m, "windows_nodes"), "windows-worker", node)
    || Holds(Unwrapped(m, "additional_worker_pools_windows_nodes"), "windows-worker", node)
  }

  lemma ListedStep(m: Attrs, i: nat, node: Node)
    requires i < |NODE_LISTS|
    ensures node in ListedNodes(m, i) <==>
      Holds(Unwrapped(m, NODE_LISTS[i].0), NODE_LISTS[i].1, node) || node in ListedNodes(m, i + 1)
  {
    hide Holds, Flatten;
    FlattenMembers(Unwrapped(m, NODE_LISTS[i].0), NODE_LISTS[i].1, node);
    HoldsIsGives(Unwrapped(m, NODE_LISTS[i].0), NODE_LISTS[i].1, node);
  }

  lemma ListedExactly(m: Attrs, node: Node)
    ensures node in ListedNodes(m, 0) <==> Lists(m, node)
  {
    hide Holds, Unwrapped, ListedNodes;
    ListedStep(m, 0, node);
    ListedStep(m, 1, node);
    ListedStep(m, 2, node);
    ListedStep(m, 3, node);
    ListedStep(m, 4, node);
    NothingListed(m, node);
  }

  lemma NothingListed(m: Attrs, node: Node)
    ensures node !in ListedNodes(m, 5)
  {
  }

  // ---------------------------------------------------------------- many values maps

  /** Some of the maps lists this node. */
  predicate SomeLists(maps: seq<Attrs>, node: Node) {
    exists i :: 0 <= i < |maps| && Lists(maps[i], node)
  }

  lemma {:induction false} AllListed(maps: seq<Attrs>, node: Node)
    ensures node in AllNodes(maps) <==> SomeLists(maps, node)
  {
    hide Lists, ListedNodes;
    if maps != [] {
      ListedExactly(maps[0], node);
      AllListed(maps[1..], node);
      if SomeLists(maps[1..], node) {
        var i :| 0 <= i < |maps[1..]| && Lists(maps[1..][i], node);
        assert Lists(maps[i + 1], node);
      }
      if SomeLists(maps, node) && !Lists(maps[0], node) {
        var i :| 0 <= i < |maps| && Lists(maps[i], node);
        assert Lists(maps[1..][i - 1], node);
      }
    }
  }

  /** Merging maps into an empty inventory lists nothing but their nodes, and, if they are NUL-free, all of them. */
  lemma MergedNodesExactly(maps: seq<Attrs>, node: Node)
    ensures var nodes := AfterAll(NOTHING, maps).nodes;
      && (node in nodes ==> SomeLists(maps, node))
      && (NulFreeVisits(maps) ==> (node in nodes <==> SomeLists(maps, node)))
  {
    hide AllNodes, FirstOccurrences, AfterAll, SomeLists, NulFreeAttrs, Clean, SameNode, Known;
    var all := AllNodes(maps);
    MergedAre(maps);
    KnownAmongFirst(all, node);
    AllListed(maps, node);
    if NulFreeVisits(maps) && node in all {
      forall n | n in all ensures Clean(n) { StateNode(maps, n); }
      NoneDropped(all, node);
      var firsts := FirstOccurrences(all);
      var i :| 0 <= i < |firsts| && SameNode(firsts[i], node);
      StateNode(maps, firsts[i]);
      StateNode(maps, node);
      SameSourceSame(firsts[i], node);
    }
  }

  lemma SameSourceSame(a: Node, b: Node)
    requires SameNode(a, b) && a.source == b.source
    ensures a == b
  {
  }

  lemma MergedAre(maps: seq<Attrs>)
    ensures AfterAll(NOTHING, maps).nodes == FirstOccurrences(AllNodes(maps))
  {
    hide AppendNodes, AllNodes, AllOffers, FirstNonEmpty, AfterAll;
    AfterAllIs(NOTHING, maps);
    var all := AllNodes(maps);
    forall i | 0 <= i < |all| ensures all[i].source != "" { StateNode(maps, all[i]); }
    AppendedAreFirstOccurrences(all);
  }

  /** One map merged into an empty inventory. */
  lemma OneMapExactly(m: Attrs, node: Node)
    ensures var nodes := AfterValues(NOTHING, m).nodes;
      && (node in nodes ==> Lists(m, node))
      && (NulFreeAttrs(m) ==> (node in nodes <==> Lists(m, node)))
  {
    hide AfterValues, Lists, NulFreeAttrs;
    MergedNodesExactly([m], node);
    assert [m] + [] == [m];
    VisitFirst(NOTHING, m, []);
    NothingVisited(AfterValues(NOTHING, m));
    assert SomeLists([m], node) <==> Lists(m, node);
  }

  /** The text offered for an address under a key. */
  function Offered(m: Attrs, key: string): string {
    if key in m && Unwrapped(m, key).Text? then TrimSpace(Unwrapped(m, key).text) else ""
  }

  lemma TwoOffers(m: Attrs, a: string, b: string)
    ensures FirstNonEmpty(Offers(m, [a, b])) == FirstNonEmpty([Offered(m, a), Offered(m, b)])
  {
    hide StringValue, TerraformValue;
    OfferIs(m, a);
    OfferIs(m, b);
    assert [a, b][1..] == [b] && [b][1..] == [];
    assert Offers(m, [b]) == if b in m then [Offered(m, b)] else [];
    assert [Offered(m, a), Offered(m, b)][1..] == [Offered(m, b)] && [Offered(m, b)][1..] == [];
    assert [] + Offers(m, [b]) == Offers(m, [b]);
    if a in m { assert ([Offered(m, a)] + Offers(m, [b]))[1..] == Offers(m, [b]); }
  }

  lemma OfferIs(m: Attrs, key: string)
    ensures key in m ==> StringValue(TerraformValue(m[key])) == Offered(m, key)
  {
  }

  lemma ThreeOffers(m: Attrs, a: string, b: string, c: string)
    ensures FirstNonEmpty(Offers(m, [a, b, c])) == FirstNonEmpty([Offered(m, a), Offered(m, b), Offered(m, c)])
  {
    hide StringValue, TerraformValue, Offered;
    OfferIs(m, a);
    TwoOffers(m, b, c);
    assert [a, b, c][1..] == [b, c];
    assert [Offered(m, a), Offered(m, b), Offered(m, c)][1..] == [Offered(m, b), Offered(m, c)];
    assert [] + Offers(m, [b, c]) == Offers(m, [b, c]);
    if a in m {
      assert ([Offered(m, a)] + Offers(m, [b, c]))[1..] == Offers(m, [b, c]);
    } else {
      NothingOfferedAt(m, a);
    }
  }

  lemma NothingOfferedAt(m: Attrs, key: string)
    ensures key !in m ==> Offered(m, key) == ""
  {
  }

  /** The addresses a map offers. */
  function ApiVIP(m: Attrs): string { FirstNonEmpty([Offered(m, "k8s_api_ip"), Offered(m, "api_vip")]) }

  function InternalVIP(m: Attrs): string {
    FirstNonEmpty([Offered(m, "k8s_internal_ip"), Offered(m, "internal_vip"), Offered(m, "vrrp_ip")])
  }

  function BastionIP(m: Attrs): string {
    FirstNonEmpty([Offered(m, "bastion_floating_ip"), Offered(m, "address_bastion")])
  }

  /** The first map, in reading order, that offers an address decides. */
  lemma {:induction false} FirstMapDecides(maps: seq<Attrs>)
    ensures var s := AfterAll(NOTHING, maps);
      && s.apiVIP == FirstNonEmpty(seq(|maps|, i requires 0 <= i < |maps| => ApiVIP(maps[i])))
      && s.internalVIP == FirstNonEmpty(seq(|maps|, i requires 0 <= i < |maps| => InternalVIP(maps[i])))
      && s.bastionFloatingIP == FirstNonEmpty(seq(|maps|, i requires 0 <= i < |maps| => BastionIP(maps[i])))
  {
    hide AfterAll, AllNodes, AppendNodes, FirstNonEmpty, AllOffers;
    AfterAllIs(NOTHING, maps);
    NothingOffered();
    OffersMapByMap(maps);
  }

  lemma {:induction false} OffersMapByMap(maps: seq<Attrs>)
    ensures FirstNonEmpty(AllOffers(maps, API_VIP_KEYS)) ==
      FirstNonEmpty(seq(|maps|, i requires 0 <= i < |maps| => ApiVIP(maps[i])))
    ensures FirstNonEmpty(AllOffers(maps, INTERNAL_VIP_KEYS)) ==
      FirstNonEmpty(seq(|maps|, i requires 0 <= i < |maps| => InternalVIP(maps[i])))
    ensures FirstNonEmpty(AllOffers(maps, BASTION_KEYS)) ==
      FirstNonEmpty(seq(|maps|, i requires 0 <= i < |maps| => BastionIP(maps[i])))
  {
    hide Offers, ApiVIP, InternalVIP, BastionIP, FirstNonEmpty;
    NothingOffered();
    var a := seq(|maps|, i requires 0 <= i < |maps| => ApiVIP(maps[i]));
    var b := seq(|maps|, i requires 0 <= i < |maps| => InternalVIP(maps[i]));
    var c := seq(|maps|, i requires 0 <= i < |maps| => BastionIP(maps[i]));
    if maps == [] {
      assert a == [] && b == [] && c == [];
    } else {
      var m, rest := maps[0], maps[1..];
      OffersMapByMap(rest);
      OfferedAddresses(m);
      FirstOfTwo(Offers(m, API_VIP_KEYS), AllOffers(rest, API_VIP_KEYS));
      FirstOfTwo(Offers(m, INTERNAL_VIP_KEYS), AllOffers(rest, INTERNAL_VIP_KEYS));
      FirstOfTwo(Offers(m, BASTION_KEYS), AllOffers(rest, BASTION_KEYS));
      assert a[1..] == seq(|rest|, i requires 0 <= i < |rest| => ApiVIP(rest[i]));
      assert b[1..] == seq(|rest|, i requires 0 <= i < |rest| => InternalVIP(rest[i]));
      assert c[1..] == seq(|rest|, i requires 0 <= i < |rest| => BastionIP(rest[i]));
      FirstStep(a); FirstStep(b); FirstStep(c);
    }
  }

  lemma FirstStep(xs: seq<string>)
    requires xs != []
    ensures FirstNonEmpty(xs) == if xs[0] != "" then xs[0] else FirstNonEmpty(xs[1..])
  {
  }

  lemma OfferedAddresses(m: Attrs)
    ensures FirstNonEmpty(Offers(m, API_VIP_KEYS)) == ApiVIP(m)
    ensures FirstNonEmpty(Offers(m, INTERNAL_VIP_KEYS)) == InternalVIP(m)
    ensures FirstNonEmpty(Offers(m, BASTION_KEYS)) == BastionIP(m)
  {
    hide Offers, Offered, FirstNonEmpty;
    TwoOffers(m, "k8s_api_ip", "api_vip");
    ThreeOffers(m, "k8s_internal_ip", "internal_vip", "vrrp_ip");
    TwoOffers(m, "bastion_floating_ip", "address_bastion");
  }

  // ---------------------------------------------------------------- a state, written out

  /** A module with its outputs, the values of its resources, and its child modules. */
  datatype Module = Module(outputs: Attrs, resources: seq<Attrs>, children: seq<Module>)

  /** A state with its outputs, its root module, and the attributes of the instances of each resource. */
  datatype Described = Described(outputs: Attrs, root: Module, resources: seq<seq<Attrs>>)

  function Under(key: string, items: seq<Attrs>): seq<Value> {
    seq(|items|, i requires 0 <= i < |items| => Fields(map[key := Fields(items[i])]))
  }

  function WrittenModule(m: Module): Value {
    Fields(map["outputs" := Fields(m.outputs), "resources" := List(Under("values", m.resources)),
               "child_modules" := List(WrittenModules(m.children))])
  }

  function WrittenModules(ms: seq<Module>): seq<Value> {
    if ms == [] then [] else [WrittenModule(ms[0])] + WrittenModules(ms[1..])
  }

  function WrittenResources(resources: seq<seq<Attrs>>): seq<Value> {
    seq(|resources|, i requires 0 <= i < |resources| =>
      Fields(map["instances" := List(Under("attributes", resources[i]))]))
  }

  /** The decoded JSON of the state. */
  function Written(d: Described): Attrs {
    map["outputs" := Fields(d.outputs), "values" := Fields(map["root_module" := WrittenModule(d.root)]),
        "resources" := List(WrittenResources(d.resources))]
  }

  /** The maps of a module in reading order: outputs, resources, then module by module. */
  function MapsOf(m: Module): seq<Attrs> {
    [m.outputs] + m.resources + MapsOfAll(m.children)
  }

  function MapsOfAll(ms: seq<Module>): seq<Attrs> {
    if ms == [] then [] else MapsOf(ms[0]) + MapsOfAll(ms[1..])
  }

  function Flat(resources: seq<seq<Attrs>>): seq<Attrs> {
    if resources == [] then [] else resources[0] + Flat(resources[1..])
  }

  lemma {:induction false} InsideUnder(key: string, items: seq<Attrs>)
    ensures Inside(Under(key, items), key) == items
  {
    if items != [] {
      var all := Under(key, items);
      assert all[1..] == Under(key, items[1..]);
      InsideUnder(key, items[1..]);
      InsideStep(all, key);
      assert items == [items[0]] + items[1..];
    }
  }

  lemma {:induction false} ModuleIsRead(m: Module)
    ensures ModuleVisits(WrittenModule(m)) == MapsOf(m)
    decreases m, 1
  {
    hide Inside, ModuleVisits, ChildVisits, Under, WrittenModules;
    var raw := WrittenModule(m);
    ModuleVisitsAre(raw);
    InsideUnder("values", m.resources);
    ChildrenAreRead(m.children, List(WrittenModules(m.children)), 0);
    assert m.children[0..] == m.children;
  }

  lemma {:induction false} ChildrenAreRead(ms: seq<Module>, children: Value, i: nat)
    requires i <= |ms| && children == List(WrittenModules(ms))
    ensures |children.items| == |ms| && ChildVisits(children, i) == MapsOfAll(ms[i..])
    decreases ms, 0, |ms| - i
  {
    hide ModuleVisits, ChildVisits, MapsOf, WrittenModule;
    ModulesWritten(ms);
    ChildVisitsStep(children, i);
    if i < |ms| {
      ModuleIsRead(ms[i]);
      ModuleIsFields(ms[i]);
      ChildrenAreRead(ms, children, i + 1);
      assert ms[i..][1..] == ms[i + 1..];
    }
  }

  lemma ModuleIsFields(m: Module)
    ensures WrittenModule(m).Fields?
  {
  }

  lemma {:induction false} ModulesWritten(ms: seq<Module>)
    ensures |WrittenModules(ms)| == |ms| && forall i :: 0 <= i < |ms| ==> WrittenModules(ms)[i] == WrittenModule(ms[i])
  {
    hide WrittenModule;
    if ms != [] { ModulesWritten(ms[1..]); }
  }

  lemma {:induction false} ResourcesAreRead(resources: seq<seq<Attrs>>)
    ensures ResourceVisits(WrittenResources(resources)) == Flat(resources)
  {
    hide Inside, Under;
    if resources != [] {
      var all := WrittenResources(resources);
      assert all[1..] == WrittenResources(resources[1..]);
      InsideUnder("attributes", resources[0]);
      ResourcesAreRead(resources[1..]);
    }
  }

  /** A state is read outputs first, then its modules, then the instances of its resources. */
  lemma StateIsRead(d: Described)
    ensures StateVisits(Written(d)) == [d.outputs] + MapsOf(d.root) + Flat(d.resources)
  {
    hide ModuleVisits, MapsOf, WrittenModule, WrittenResources, ResourceVisits, Flat;
    var values := Fields(map["root_module" := WrittenModule(d.root)]);
    ModuleIsFields(d.root);
    ModuleVisitsAre(values);
    ModuleIsRead(d.root);
    ResourcesAreRead(d.resources);
  }

  /** The nodes of a state: those that the outputs, a module or an instance lists under one of the five keys. */
  lemma InventoryOfWritten(d: Described, node: Node)
    ensures var maps := [d.outputs] + MapsOf(d.root) + Flat(d.resources);
      var nodes := AfterAll(NOTHING, StateVisits(Written(d))).nodes;
      && (node in nodes ==> SomeLists(maps, node))
      && (NulFreeVisits(maps) ==> (node in nodes <==> SomeLists(maps, node)))
  {
    hide AfterAll, StateVisits, Written, MapsOf, Flat, SomeLists, NulFreeVisits;
    StateIsRead(d);
    MergedNodesExactly([d.outputs] + MapsOf(d.root) + Flat(d.resources), node);
  }

  /** What merging two inventories keeps of their networks. */
  lemma MergedNetworkPrefers(a: Network, b: Network)
    ensures var n := MergedNetwork(a, b);
      && n.apiEndpoint == (if b.apiEndpoint != "" then b.apiEndpoint else a.apiEndpoint)
      && n.apiVIP == (if b.apiVIP != "" then b.apiVIP else a.apiVIP)
      && n.internalVIP == (if b.internalVIP != "" then b.internalVIP else a.internalVIP)
      && n.loadBalancer == (if b.loadBalancer != "" then b.loadBalancer else a.loadBalancer)
      && n.floatingIPPool == (if b.floatingIPPool != "" then b.floatingIPPool else a.floatingIPPool)
      && n.bastionFloatingIP == if b.bastionFloatingIP != "" then b.bastionFloatingIP else a.bastionFloatingIP
  {
  }
}
