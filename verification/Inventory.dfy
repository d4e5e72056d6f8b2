/** The inventory of cmd/cluster_status_inventory.go, filled in place while the state is walked. */
module Inventory {
  import opened StringSets
  import opened Text
  import opened InventorySpec

  datatype Network = Network(
    apiEndpoint: string, apiVIP: string, internalVIP: string, loadBalancer: string, floatingIPPool: string,
    bastionFloatingIP: string)

  const NO_NETWORK := Network("", "", "", "", "", "")

  method KeysOf(value: Attrs) returns (keys: seq<string>)
    ensures keys == KeysInOrder(value.Keys)
  {
    var left := value.Keys;
    var found: seq<string> := [];
    while left != {}
      invariant left <= value.Keys && multiset(found) == multiset(value.Keys - left)
      decreases |left|
    {
      var k :| k in left;
      assert value.Keys - (left - {k}) == (value.Keys - left) + {k};
      found, left := found + [k], left - {k};
    }
    assert value.Keys - left == value.Keys;
    keys := SortedCopy(found);
    KeysInOrderFacts(value.Keys);
    SortedIsUnique(keys, KeysInOrder(value.Keys));
  }

  method NodesFromValue(raw: Value, role: string) returns (nodes: seq<Node>)
    ensures nodes == Flatten(raw, role)
    decreases raw
  {
    hide LooksLikeNodeMap, NodeFromMap, FlattenItems, FlattenKeys, KeysInOrder, Flatten;
    nodes := [];
    if raw.List? {
      FlattenList(raw, role);
      for i := 0 to |raw.items|
        invariant Flatten(raw, role) == nodes + FlattenItems(raw, i, role)
      {
        FlattenItemsStep(raw, i, role);
        var more := NodesFromValue(raw.items[i], role);
        Regroup(nodes, more, FlattenItems(raw, i + 1, role));
        nodes := nodes + more;
      }
      FlattenItemsStep(raw, |raw.items|, role);
    } else if raw.Fields? {
      FlattenMap(raw, role);
      if LooksLikeNodeMap(raw.fields) {
        var node := NodeFromMap(raw.fields, role);
        if node.Some? { nodes := [node.value]; }
        return;
      }
      var keys := KeysOf(raw.fields);
      assert keys[0..] == keys;
      for i := 0 to |keys|
        invariant Flatten(raw, role) == nodes + FlattenKeys(raw, keys[i..], role)
      {
        FlattenKeysStep(raw, keys[i..], role);
        assert keys[i..][1..] == keys[i + 1..];
        var more := NodesFromValue(raw.fields[keys[i]], role);
        Regroup(nodes, more, FlattenKeys(raw, keys[i + 1..], role));
        nodes := nodes + more;
      }
      FlattenKeysStep(raw, [], role);
    } else {
      FlattenOther(raw, role);
    }
  }

  lemma Regroup(a: seq<Node>, b: seq<Node>, c: seq<Node>)
    ensures a + (b + c) == (a + b) + c
  {
  }

  lemma FlattenOther(raw: Value, role: string)
    requires !raw.List? && !raw.Fields?
    ensures Flatten(raw, role) == []
  {
  }

  /** One of the three loops over address keys in mergeInventoryValues. */
  method MergeAddress(known: string, values: Attrs, keys: seq<string>) returns (address: string)
    ensures address == AfterAddress(known, values, keys)
  {
    address := known;
    assert keys[0..] == keys;
    for k := 0 to |keys|
      invariant AfterAddress(known, values, keys) == AfterAddress(address, values, keys[k..])
    {
      assert keys[k..][1..] == keys[k + 1..];
      if keys[k] in values && address == "" { address := StringValue(TerraformValue(values[keys[k]])); }
    }
  }

  function MergedNetwork(a: Network, b: Network): Network {
    Network(FirstOf(b.apiEndpoint, a.apiEndpoint), FirstOf(b.apiVIP, a.apiVIP), FirstOf(b.internalVIP, a.internalVIP),
            FirstOf(b.loadBalancer, a.loadBalancer), FirstOf(b.floatingIPPool, a.floatingIPPool),
            FirstOf(b.bastionFloatingIP, a.bastionFloatingIP))
  }

  class ClusterInventory {
    var source: string
    var statePath: string
    var network: Network
    var nodes: seq<Node>
    var warnings: seq<string>

    constructor (source: string, statePath: string)
      ensures this.source == source && this.statePath == statePath && Found() == NOTHING && warnings == []
      ensures network == NO_NETWORK
    {
      this.source, this.statePath := source, statePath;
      network, nodes, warnings := NO_NETWORK, [], [];
    }

    ghost function Found(): Snapshot
      reads this
    {
      Snapshot(network.apiVIP, network.internalVIP, network.bastionFloatingIP, nodes)
    }

    /** The part of the network that the state says nothing about. */
    ghost function Configured(): Network
      reads this
    {
      network.(apiVIP := "", internalVIP := "", bastionFloatingIP := "")
    }

    method AppendInventoryNode(node: Node)
      modifies this`nodes
      ensures nodes == AppendNode(old(nodes), node)
    {
      for i := 0 to |nodes|
        invariant forall j :: 0 <= j < i ==> NodeKey(nodes[j]) != NodeKey(node)
      {
        if NodeKey(nodes[i]) == NodeKey(node) { return; }
      }
      nodes := nodes + [if node.source == "" then node.(source := OPENTOFU_STATE) else node];
    }

    method AppendInventoryNodes(role: string, raw: Value)
      modifies this`nodes
      ensures nodes == AppendNodes(old(nodes), Flatten(raw, role))
    {
      hide Flatten, AppendNode;
      var more := NodesFromValue(raw, role);
      assert more[0..] == more;
      for i := 0 to |more|
        invariant AppendNodes(old(nodes), more) == AppendNodes(nodes, more[i..])
      {
        assert more[i..][1..] == more[i + 1..];
        AppendInventoryNode(more[i]);
      }
    }

    method MergeInventoryValues(values: Attrs)
      modifies this`network, this`nodes
      ensures Configured() == old(Configured())
      ensures Found() == AfterValues(old(Found()), values)
    {
      hide Flatten, AppendNodes, AfterAddress, ListedNodes, At, TerraformValue;
      var address := MergeAddress(network.apiVIP, values, API_VIP_KEYS);
      network := network.(apiVIP := address);
      address := MergeAddress(network.internalVIP, values, INTERNAL_VIP_KEYS);
      network := network.(internalVIP := address);
      address := MergeAddress(network.bastionFloatingIP, values, BASTION_KEYS);
      network := network.(bastionFloatingIP := address);
      ghost var was := nodes;
      NodeListsStep(was, values, 0);
      AppendInventoryNodes(CONTROLLER, TerraformValue(At(values, "master_nodes")));
      NodeListsStep(nodes, values, 1);
      AppendInventoryNodes(WORKER, TerraformValue(At(values, "worker_nodes")));
      NodeListsStep(nodes, values, 2);
      AppendInventoryNodes(WINDOWS_WORKER, TerraformValue(At(values, "windows_nodes")));
      NodeListsStep(nodes, values, 3);
      AppendInventoryNodes(WORKER, TerraformValue(At(values, "additional_worker_pools_nodes")));
      NodeListsStep(nodes, values, 4);
      AppendInventoryNodes(WINDOWS_WORKER, TerraformValue(At(values, "additional_worker_pools_windows_nodes")));
      NodeListsStep(nodes, values, 5);
    }

    /** Merges what each item of a list holds under one key. */
    method MergeInside(items: seq<Value>, key: string)
      modifies this`network, this`nodes
      ensures Configured() == old(Configured())
      ensures Found() == AfterAll(old(Found()), Inside(items, key))
    {
      hide AfterValues, Found, Configured, FieldsAt, Inside;
      assert items[0..] == items;
      for i := 0 to |items|
        invariant Configured() == old(Configured())
        invariant AfterAll(old(Found()), Inside(items, key)) == AfterAll(Found(), Inside(items[i..], key))
      {
        assert items[i..][1..] == items[i + 1..];
        InsideStep(items[i..], key);
        if !items[i].Fields? { NoFields(key); continue; }
        var values := FieldsAt(items[i].fields, key);
        if values.None? { continue; }
        VisitFirst(Found(), values.value, Inside(items[i + 1..], key));
        MergeInventoryValues(values.value);
      }
      InsideNothing(key);
    }

    method ParseOpenTofuResourceValues(resources: seq<Value>)
      modifies this`network, this`nodes
      ensures Configured() == old(Configured())
      ensures Found() == AfterAll(old(Found()), Inside(resources, "values"))
    {
      MergeInside(resources, "values");
    }

    method ParseOpenTofuResources(resources: seq<Value>)
      modifies this`network, this`nodes
      ensures Configured() == old(Configured())
      ensures Found() == AfterAll(old(Found()), ResourceVisits(resources))
    {
      hide AfterAll, Found, Configured, Inside, At;
      assert resources[0..] == resources;
      for i := 0 to |resources|
        invariant Configured() == old(Configured())
        invariant AfterAll(old(Found()), ResourceVisits(resources)) == AfterAll(Found(), ResourceVisits(resources[i..]))
      {
        assert resources[i..][1..] == resources[i + 1..];
        var instances := ItemsAt(FieldsOf(resources[i]), "instances");
        VisitInTwo(Found(), Inside(instances, "attributes"), ResourceVisits(resources[i + 1..]));
        MergeInside(instances, "attributes");
      }
      NothingVisited(Found());
    }

    method ParseOpenTofuValuesModule(module_: Value)
      requires module_.Fields?
      modifies this`network, this`nodes
      ensures Configured() == old(Configured())
      ensures Found() == AfterAll(old(Found()), ModuleVisits(module_))
      decreases module_
    {
      hide AfterAll, Found, Configured, Inside, AfterValues, ModuleVisits, ChildVisits;
      ModuleVisitsAre(module_);
      var m := module_.fields;
      if "root_module" in m && m["root_module"].Fields? {
        ParseOpenTofuValuesModule(m["root_module"]);
        return;
      }
      ghost var outputs, children := OutputVisits(m), ChildModuleVisits(m);
      ghost var resources := Inside(ItemsAt(m, "resources"), "values");
      VisitInTwo(Found(), outputs + resources, children);
      VisitInTwo(Found(), outputs, resources);
      MergeOutputs(m);
      ParseOpenTofuResourceValues(ItemsAt(m, "resources"));
      NothingVisited(Found());
      if "child_modules" in m && m["child_modules"].List? {
        var childModules := m["child_modules"];
        for i := 0 to |childModules.items|
          invariant Configured() == old(Configured())
          invariant AfterAll(old(Found()), ModuleVisits(module_)) == AfterAll(Found(), ChildVisits(childModules, i))
        {
          var child := childModules.items[i];
          ChildVisitsStep(childModules, i);
          if !child.Fields? { continue; }
          VisitInTwo(Found(), ModuleVisits(child), ChildVisits(childModules, i + 1));
          ParseOpenTofuValuesModule(child);
        }
        ChildVisitsStep(childModules, |childModules.items|);
        NothingVisited(Found());
      }
    }

    method MergeOutputs(m: Attrs)
      modifies this`network, this`nodes
      ensures Configured() == old(Configured())
      ensures Found() == AfterAll(old(Found()), OutputVisits(m))
    {
      hide AfterValues, Found, Configured;
      var outputs := FieldsAt(m, "outputs");
      if outputs.Some? { MergeInventoryValues(outputs.value); }
    }

    method ReadOpenTofuStateInventory(state: Attrs)
      modifies this`network, this`nodes
      ensures Configured() == old(Configured())
      ensures Found() == AfterAll(old(Found()), StateVisits(state))
    {
      hide AfterAll, Found, Configured, Inside, AfterValues, ModuleVisits, ResourceVisits, OutputVisits;
      ghost var outputs, resources := OutputVisits(state), ResourceVisits(ItemsAt(state, "resources"));
      ghost var values := if At(state, "values").Fields? then ModuleVisits(state["values"]) else [];
      VisitInTwo(Found(), outputs + values, resources);
      VisitInTwo(Found(), outputs, values);
      MergeOutputs(state);
      NothingVisited(Found());
      if "values" in state && state["values"].Fields? { ParseOpenTofuValuesModule(state["values"]); }
      ParseOpenTofuResources(ItemsAt(state, "resources"));
    }

    /** mergeInventory: what the incoming inventory knows wins, and its nodes replace all others. */
    method Merge(incoming: ClusterInventory)
      modifies this
      ensures source == old(incoming.source) && statePath == FirstOf(old(incoming.statePath), old(statePath))
      ensures network == MergedNetwork(old(network), old(incoming.network))
      ensures nodes == if old(incoming.nodes) != [] then old(incoming.nodes) else old(nodes)
      ensures warnings == old(warnings) + old(incoming.warnings)
    {
      hide FirstOf;
      var from := incoming.network;
      warnings := warnings + incoming.warnings;
      source := incoming.source;
      statePath := FirstOf(incoming.statePath, statePath);
      network := network.(apiEndpoint := FirstOf(from.apiEndpoint, network.apiEndpoint));
      network := network.(apiVIP := FirstOf(from.apiVIP, network.apiVIP));
      network := network.(internalVIP := FirstOf(from.internalVIP, network.internalVIP));
      network := network.(loadBalancer := FirstOf(from.loadBalancer, network.loadBalancer));
      network := network.(floatingIPPool := FirstOf(from.floatingIPPool, network.floatingIPPool));
      network := network.(bastionFloatingIP := FirstOf(from.bastionFloatingIP, network.bastionFloatingIP));
      if |incoming.nodes| > 0 { nodes := incoming.nodes; }
    }
  }

  lemma InsideStep(items: seq<Value>, key: string)
    requires items != []
    ensures var found := FieldsAt(FieldsOf(items[0]), key);
      Inside(items, key) == if found.Some? then [found.value] + Inside(items[1..], key) else Inside(items[1..], key)
  {
  }

  lemma InsideNothing(key: string)
    ensures forall items: seq<Value> :: items == [] ==> Inside(items, key) == []
  {
  }

  lemma {:induction false} VisitInTwo(s: Snapshot, a: seq<Attrs>, b: seq<Attrs>)
    ensures AfterAll(s, a + b) == AfterAll(AfterAll(s, a), b)
    decreases |a|
  {
    hide AfterValues;
    if a == [] {
      assert a + b == b;
    } else {
      assert (a + b)[1..] == a[1..] + b;
      VisitInTwo(AfterValues(s, a[0]), a[1..], b);
    }
  }

  lemma NothingVisited(s: Snapshot)
    ensures AfterAll(s, []) == s
  {
  }

  lemma ModuleVisitsAre(module_: Value)
    requires module_.Fields?
    ensures ModuleVisits(module_) == var m := module_.fields;
      if At(m, "root_module").Fields? then ModuleVisits(m["root_module"])
      else OutputVisits(m) + Inside(ItemsAt(m, "resources"), "values") + ChildModuleVisits(m)
  {
  }

  lemma ChildVisitsStep(children: Value, i: nat)
    requires children.List? && i <= |children.items|
    ensures ChildVisits(children, i) ==
      if i == |children.items| then []
      else (if children.items[i].Fields? then ModuleVisits(children.items[i]) else []) + ChildVisits(children, i + 1)
    ensures i < |children.items| && !children.items[i].Fields? ==>
      ChildVisits(children, i) == ChildVisits(children, i + 1)
  {
  }

  lemma NoFields(key: string)
    ensures FieldsAt(map[], key).None?
  {
  }

  lemma VisitFirst(s: Snapshot, values: Attrs, visits: seq<Attrs>)
    ensures AfterAll(s, [values] + visits) == AfterAll(AfterValues(s, values), visits)
  {
  }

  /** Appending the nodes of one list, then those of the lists after it. */
  lemma NodeListsStep(nodes: seq<Node>, values: Attrs, i: nat)
    requires i <= |NODE_LISTS|
    ensures AppendNodes(nodes, ListedNodes(values, i)) ==
      if i == |NODE_LISTS| then nodes
      else
        AppendNodes(AppendNodes(nodes, Flatten(TerraformValue(At(values, NODE_LISTS[i].0)), NODE_LISTS[i].1)),
                    ListedNodes(values, i + 1))
  {
    hide Flatten, At, TerraformValue, AppendNode;
    if i < |NODE_LISTS| {
      AppendInTwo(nodes, Flatten(TerraformValue(At(values, NODE_LISTS[i].0)), NODE_LISTS[i].1),
                  ListedNodes(values, i + 1));
    }
  }

  lemma {:induction false} AppendInTwo(nodes: seq<Node>, a: seq<Node>, b: seq<Node>)
    ensures AppendNodes(nodes, a + b) == AppendNodes(AppendNodes(nodes, a), b)
    decreases |a|
  {
    hide AppendNode;
    if a == [] {
      assert a + b == b;
    } else {
      assert (a + b)[1..] == a[1..] + b;
      AppendInTwo(AppendNode(nodes, a[0]), a[1..], b);
    }
  }
}
