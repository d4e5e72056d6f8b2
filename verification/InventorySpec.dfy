/** What cmd/cluster_status_inventory.go reads from a decoded OpenTofu state: which values, in which order. */
module InventorySpec {
  import opened Text
  import opened StringSets

  /** A decoded JSON value. */
  datatype Value = Null | Atom | Text(text: string) | List(items: seq<Value>) | Fields(fields: map<string, Value>)

  type Attrs = map<string, Value>

  datatype Node = Node(name: string, role: string, internalIP: string, externalIP: string, source: string)

  const CONTROLLER := "controller"
  const WORKER := "worker"
  const WINDOWS_WORKER := "windows-worker"
  const OPENTOFU_STATE := "opentofu_state"

  const NAME_KEYS := ["name", "id", "hostname"]
  const INTERNAL_KEYS := ["access_ip_v4", "internal_ip", "fixed_ip", "ip", "private_ip", "address"]
  const EXTERNAL_KEYS := ["external_ip", "floating_ip", "public_ip"]

  const API_VIP_KEYS := ["k8s_api_ip", "api_vip"]
  const INTERNAL_VIP_KEYS := ["k8s_internal_ip", "internal_vip", "vrrp_ip"]
  const BASTION_KEYS := ["bastion_floating_ip", "address_bastion"]

  /** The lists of nodes in a values map, in the order they are read, with the role each gives. */
  const NODE_LISTS := [
    ("master_nodes", CONTROLLER), ("worker_nodes", WORKER), ("windows_nodes", WINDOWS_WORKER),
    ("additional_worker_pools_nodes", WORKER), ("additional_worker_pools_windows_nodes", WINDOWS_WORKER)]

  function StringValue(raw: Value): string {
    if raw.Text? then TrimSpace(raw.text) else ""
  }

  /** An output is wrapped in a map that holds it under value. */
  function TerraformValue(raw: Value): Value {
    if raw.Fields? && "value" in raw.fields then raw.fields["value"] else raw
  }

  function At(values: Attrs, key: string): Value {
    if key in values then values[key] else Null
  }

  function FirstString(values: Attrs, keys: seq<string>): string {
    if keys == [] then ""
    else if StringValue(At(values, keys[0])) != "" then StringValue(At(values, keys[0]))
    else FirstString(values, keys[1..])
  }

  predicate LooksLikeNodeMap(value: Attrs) {
    exists k :: k in NAME_KEYS + INTERNAL_KEYS + EXTERNAL_KEYS && k in value
  }

  function NodeFromMap(value: Attrs, role: string): Option<Node> {
    var internalIP := FirstString(value, INTERNAL_KEYS);
    var externalIP := FirstString(value, EXTERNAL_KEYS);
    var known := FirstString(value, NAME_KEYS);
    var name := if known == "" then internalIP else known;
    if name == "" && externalIP == "" then None
    else Some(Node(name, role, internalIP, externalIP, OPENTOFU_STATE))
  }

  // ---------------------------------------------------------------- keys in order

  lemma {:induction false} LeastKey(keys: set<string>) returns (least: string)
    requires keys != {}
    ensures least in keys && forall k :: k in keys ==> Leq(least, k)
    decreases |keys|
  {
    var k :| k in keys;
    if keys == {k} {
      least := k;
      LeqReflexive(k);
    } else {
      var other := LeastKey(keys - {k});
      LeqTotal(k, other);
      least := if Leq(k, other) then k else other;
      LeqReflexive(k);
      forall x | x in keys ensures Leq(least, x) {
        if x != k && Leq(k, other) { LeqTransitive(k, other, x); }
      }
    }
  }

  ghost predicate IsLeast(least: string, keys: set<string>) {
    least in keys && forall k :: k in keys ==> Leq(least, k)
  }

  /** The keys of a map, each once, as sort.Strings leaves them. */
  ghost function KeysInOrder(keys: set<string>): seq<string>
    decreases |keys|
  {
    if keys == {} then []
    else
      assert exists k :: IsLeast(k, keys) by { var k := LeastKey(keys); assert IsLeast(k, keys); }
      var k :| IsLeast(k, keys);
      [k] + KeysInOrder(keys - {k})
  }

  lemma {:induction false} KeysInOrderFacts(keys: set<string>)
    ensures Sorted(KeysInOrder(keys)) && multiset(KeysInOrder(keys)) == multiset(keys)
    ensures forall k :: k in KeysInOrder(keys) <==> k in keys
    decreases |keys|
  {
    hide Leq;
    if keys != {} {
      var all := KeysInOrder(keys);
      var k, rest := all[0], all[1..];
      assert all == [k] + rest;
      KeysInOrderFacts(keys - {k});
      assert multiset(keys) == multiset{k} + multiset(keys - {k});
      InsertFrontOfAll(k, rest, keys);
    }
  }

  lemma InsertFrontOfAll(k: string, rest: seq<string>, keys: set<string>)
    requires Sorted(rest) && (forall x :: x in rest ==> x in keys) && IsLeast(k, keys)
    ensures Sorted([k] + rest)
  {
  }

  // ---------------------------------------------------------------- nodes in a value

  /** nodesFromValue: lists item by item, maps that are no nodes key by key. */
  ghost function Flatten(raw: Value, role: string): seq<Node>
    decreases raw, 1, 0
  {
    match raw
    case List(items) => FlattenItems(raw, 0, role)
    case Fields(value) =>
      if LooksLikeNodeMap(value) then
        var node := NodeFromMap(value, role);
        if node.Some? then [node.value] else []
      else
        KeysInOrderFacts(value.Keys);
        FlattenKeys(raw, KeysInOrder(value.Keys), role)
    case _ => []
  }

  ghost function FlattenItems(raw: Value, i: nat, role: string): seq<Node>
    requires raw.List? && i <= |raw.items|
    decreases raw, 0, |raw.items| - i
  {
    if i == |raw.items| then [] else Flatten(raw.items[i], role) + FlattenItems(raw, i + 1, role)
  }

  ghost function FlattenKeys(raw: Value, keys: seq<string>, role: string): seq<Node>
    requires raw.Fields? && forall k :: k in keys ==> k in raw.fields
    decreases raw, 0, |keys|
  {
    if keys == [] then [] else Flatten(raw.fields[keys[0]], role) + FlattenKeys(raw, keys[1..], role)
  }

  lemma FlattenList(raw: Value, role: string)
    requires raw.List?
    ensures Flatten(raw, role) == FlattenItems(raw, 0, role)
  {
  }

  lemma FlattenItemsStep(raw: Value, i: nat, role: string)
    requires raw.List? && i <= |raw.items|
    ensures FlattenItems(raw, i, role) ==
      if i == |raw.items| then [] else Flatten(raw.items[i], role) + FlattenItems(raw, i + 1, role)
  {
  }

  lemma FlattenMap(raw: Value, role: string)
    requires raw.Fields?
    ensures forall k :: k in KeysInOrder(raw.fields.Keys) ==> k in raw.fields
    ensures Flatten(raw, role) ==
      if !LooksLikeNodeMap(raw.fields) then FlattenKeys(raw, KeysInOrder(raw.fields.Keys), role)
      else if NodeFromMap(raw.fields, role).Some? then [NodeFromMap(raw.fields, role).value] else []
  {
    hide LooksLikeNodeMap, NodeFromMap, Sorted;
    KeysInOrderFacts(raw.fields.Keys);
  }

  lemma FlattenKeysStep(raw: Value, keys: seq<string>, role: string)
    requires raw.Fields? && forall k :: k in keys ==> k in raw.fields
    ensures FlattenKeys(raw, keys, role) ==
      if keys == [] then [] else Flatten(raw.fields[keys[0]], role) + FlattenKeys(raw, keys[1..], role)
  {
  }

  // ---------------------------------------------------------------- adding nodes

  function NodeKey(node: Node): string {
    node.role + ("\0" + (node.name + ("\0" + (node.internalIP + ("\0" + node.externalIP)))))
  }

  function Sourced(node: Node): Node {
    if node.source == "" then node.(source := OPENTOFU_STATE) else node
  }

  predicate Known(nodes: seq<Node>, node: Node) {
    exists i :: 0 <= i < |nodes| && NodeKey(nodes[i]) == NodeKey(node)
  }

  function AppendNode(nodes: seq<Node>, node: Node): seq<Node> {
    if Known(nodes, node) then nodes else nodes + [Sourced(node)]
  }

  function AppendNodes(nodes: seq<Node>, more: seq<Node>): seq<Node>
    decreases |more|
  {
    if more == [] then nodes else AppendNodes(AppendNode(nodes, more[0]), more[1..])
  }

  // ---------------------------------------------------------------- one values map

  /** What the state has told about the cluster so far. */
  datatype Snapshot = Snapshot(apiVIP: string, internalVIP: string, bastionFloatingIP: string, nodes: seq<Node>)

  const NOTHING := Snapshot("", "", "", [])

  /** An address once known is kept; otherwise the keys are tried in turn. */
  function AfterAddress(known: string, values: Attrs, keys: seq<string>): string
    decreases |keys|
  {
    if keys == [] then known
    else
      var next := if keys[0] in values && known == "" then StringValue(TerraformValue(values[keys[0]])) else known;
      AfterAddress(next, values, keys[1..])
  }

  /** The nodes that a values map lists, from the i-th list on. */
  ghost function ListedNodes(values: Attrs, i: nat): seq<Node>
    requires i <= |NODE_LISTS|
    decreases |NODE_LISTS| - i
  {
    if i == |NODE_LISTS| then []
    else Flatten(TerraformValue(At(values, NODE_LISTS[i].0)), NODE_LISTS[i].1) + ListedNodes(values, i + 1)
  }

  ghost function AfterValues(s: Snapshot, values: Attrs): Snapshot {
    Snapshot(AfterAddress(s.apiVIP, values, API_VIP_KEYS), AfterAddress(s.internalVIP, values, INTERNAL_VIP_KEYS),
             AfterAddress(s.bastionFloatingIP, values, BASTION_KEYS), AppendNodes(s.nodes, ListedNodes(values, 0)))
  }

  ghost function AfterAll(s: Snapshot, visits: seq<Attrs>): Snapshot
    decreases |visits|
  {
    if visits == [] then s else AfterAll(AfterValues(s, visits[0]), visits[1..])
  }

  // ---------------------------------------------------------------- the maps of a state

  function FieldsAt(values: Attrs, key: string): Option<Attrs> {
    if At(values, key).Fields? then Some(At(values, key).fields) else None
  }

  function ItemsAt(values: Attrs, key: string): seq<Value> {
    if At(values, key).List? then At(values, key).items else []
  }

  function FieldsOf(raw: Value): Attrs {
    if raw.Fields? then raw.fields else map[]
  }

  /** The values maps found under one key of each item of a list. */
  function Inside(items: seq<Value>, key: string): seq<Attrs> {
    if items == [] then []
    else
      var found := FieldsAt(FieldsOf(items[0]), key);
      (if found.Some? then [found.value] else []) + Inside(items[1..], key)
  }

  function OutputVisits(m: Attrs): seq<Attrs> {
    var outputs := FieldsAt(m, "outputs");
    if outputs.Some? then [outputs.value] else []
  }

  /** parseOpenTofuValuesModule: a root module stands for everything around it; children come last. */
  function ModuleVisits(module_: Value): seq<Attrs>
    requires module_.Fields?
    decreases module_, 1, 0
  {
    var m := module_.fields;
    if At(m, "root_module").Fields? then ModuleVisits(m["root_module"])
    else
      OutputVisits(m) + Inside(ItemsAt(m, "resources"), "values") +
      (if At(m, "child_modules").List? then ChildVisits(m["child_modules"], 0) else [])
  }

  function ChildModuleVisits(m: Attrs): seq<Attrs> {
    if At(m, "child_modules").List? then ChildVisits(m["child_modules"], 0) else []
  }

  function ChildVisits(children: Value, i: nat): seq<Attrs>
    requires children.List? && i <= |children.items|
    decreases children, 0, |children.items| - i
  {
    if i == |children.items| then []
    else
      (if children.items[i].Fields? then ModuleVisits(children.items[i]) else []) + ChildVisits(children, i + 1)
  }

  /** parseOpenTofuResources: the attributes of every instance of every resource. */
  function ResourceVisits(resources: seq<Value>): seq<Attrs> {
    if resources == [] then []
    else Inside(ItemsAt(FieldsOf(resources[0]), "instances"), "attributes") + ResourceVisits(resources[1..])
  }

  function StateVisits(state: Attrs): seq<Attrs> {
    OutputVisits(state) +
    (if At(state, "values").Fields? then ModuleVisits(state["values"]) else []) +
    ResourceVisits(ItemsAt(state, "resources"))
  }
}
