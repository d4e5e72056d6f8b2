/** What the inventory of a state holds: each node once, each address from the first place that has it. */
module InventoryProofs {
  import opened Text
  import opened InventorySpec
  import opened Inventory

  predicate SameNode(a: Node, b: Node) {
    a.role == b.role && a.name == b.name && a.internalIP == b.internalIP && a.externalIP == b.externalIP
  }

  /** The separators inside the parts, of which there are none in a real node, are equally many. */
  predicate SameNuls(a: Node, b: Node) {
    && CountOf('\0', a.role) == CountOf('\0', b.role) && CountOf('\0', a.name) == CountOf('\0', b.name)
    && CountOf('\0', a.internalIP) == CountOf('\0', b.internalIP)
  }

  /** Nodes agree in their parts exactly when their joined keys do and stray separators are equally many. */
  lemma NodeKeysTell(a: Node, b: Node)
    ensures SameNode(a, b) <==> NodeKey(a) == NodeKey(b) && SameNuls(a, b)
  {
    hide CountOf;
    if NodeKey(a) == NodeKey(b) && SameNuls(a, b) {
      var s, t := a.internalIP + ("\0" + a.externalIP), b.internalIP + ("\0" + b.externalIP);
      NextPiece('\0', a.role, a.name + ("\0" + s), b.role, b.name + ("\0" + t));
      NextPiece('\0', a.name, s, b.name, t);
      NextPiece('\0', a.internalIP, a.externalIP, b.internalIP, b.externalIP);
    }
  }

  predicate Clean(node: Node) {
    '\0' !in node.role && '\0' !in node.name && '\0' !in node.internalIP && '\0' !in node.externalIP
  }

  /** Without NUL in them, as nodes are, the key tells nodes apart exactly when a part does. */
  lemma CleanNodeKeysTell(a: Node, b: Node)
    requires Clean(a) && Clean(b)
    ensures NodeKey(a) == NodeKey(b) <==> SameNode(a, b)
  {
    hide NodeKey, SameNode, CountOf;
    CountOfNone('\0', a.role); CountOfNone('\0', a.name); CountOfNone('\0', a.internalIP);
    CountOfNone('\0', b.role); CountOfNone('\0', b.name); CountOfNone('\0', b.internalIP);
    NodeKeysTell(a, b);
  }

  // ---------------------------------------------------------------- first occurrences

  /** The nodes whose key no node before them has. */
  function FirstOccurrences(all: seq<Node>): seq<Node> {
    if all == [] then []
    else
      var init, last := all[..|all| - 1], all[|all| - 1];
      if Known(init, last) then FirstOccurrences(init) else FirstOccurrences(init) + [last]
  }

  ghost predicate AllSourced(all: seq<Node>) {
    forall i :: 0 <= i < |all| ==> all[i].source != ""
  }

  /** A key is among the first occurrences of a list if and only if it is in the list. */
  lemma {:induction false} KnownAmongFirst(all: seq<Node>, node: Node)
    ensures Known(FirstOccurrences(all), node) <==> Known(all, node)
    ensures forall i :: 0 <= i < |FirstOccurrences(all)| ==> FirstOccurrences(all)[i] in all
  {
    hide NodeKey;
    if all != [] {
      var init, last := all[..|all| - 1], all[|all| - 1];
      assert all == init + [last];
      KnownAmongFirst(init, node);
      KnownOneMore(init, last, node);
      KnownOneMore(FirstOccurrences(init), last, node);
      if Known(init, last) && NodeKey(last) == NodeKey(node) { KnownAlike(init, last, node); }
    }
  }

  lemma KnownOneMore(all: seq<Node>, last: Node, node: Node)
    ensures Known(all + [last], node) <==> Known(all, node) || NodeKey(last) == NodeKey(node)
  {
    hide NodeKey;
    var more := all + [last];
    assert more[|all|] == last && forall i :: 0 <= i < |all| ==> more[i] == all[i];
  }

  lemma KnownAlike(all: seq<Node>, a: Node, b: Node)
    requires Known(all, a) && NodeKey(a) == NodeKey(b)
    ensures Known(all, b)
  {
    hide NodeKey;
    var i :| 0 <= i < |all| && NodeKey(all[i]) == NodeKey(a);
  }

  /** Appending nodes one by one keeps exactly the first occurrences. */
  lemma {:induction false} AppendedAreFirstOccurrences(all: seq<Node>)
    requires AllSourced(all)
    ensures AppendNodes([], all) == FirstOccurrences(all)
    decreases |all|
  {
    hide Known, NodeKey;
    if all != [] {
      var init, last := all[..|all| - 1], all[|all| - 1];
      assert all == init + [last];
      AppendedAreFirstOccurrences(init);
      AppendInTwo([], init, [last]);
      KnownAmongFirst(init, last);
      assert [last][1..] == [];
    }
  }

  /** No two of the first occurrences share a key, so no two share role, name and both addresses. */
  lemma {:induction false} FirstOccurrencesDiffer(all: seq<Node>, i: nat, j: nat)
    requires i < j < |FirstOccurrences(all)|
    ensures var a, b := FirstOccurrences(all)[i], FirstOccurrences(all)[j]; NodeKey(a) != NodeKey(b) && !SameNode(a, b)
  {
    hide NodeKey, SameNode;
    var init, last := all[..|all| - 1], all[|all| - 1];
    var firsts := FirstOccurrences(init);
    if j < |firsts| {
      FirstOccurrencesDiffer(init, i, j);
    } else {
      KnownAmongFirst(init, last);
      NodeKeysTell(firsts[i], last);
    }
  }

  /** Among NUL-free nodes every one is like one of the first occurrences. */
  lemma NoneDropped(all: seq<Node>, node: Node)
    requires node in all && forall n :: n in all ==> Clean(n)
    ensures exists i :: 0 <= i < |FirstOccurrences(all)| && SameNode(FirstOccurrences(all)[i], node)
  {
    hide NodeKey, SameNode, Clean;
    var k :| 0 <= k < |all| && all[k] == node;
    assert NodeKey(all[k]) == NodeKey(node);
    KnownAmongFirst(all, node);
    var firsts := FirstOccurrences(all);
    var i :| 0 <= i < |firsts| && NodeKey(firsts[i]) == NodeKey(node);
    CleanNodeKeysTell(firsts[i], node);
  }

  // ---------------------------------------------------------------- addresses

  /** What a values map offers for an address, in the order of the keys. */
  function Offers(values: Attrs, keys: seq<string>): seq<string> {
    if keys == [] then []
    else (if keys[0] in values then [StringValue(TerraformValue(values[keys[0]]))] else []) + Offers(values, keys[1..])
  }

  function AllOffers(visits: seq<Attrs>, keys: seq<string>): seq<string> {
    if visits == [] then [] else Offers(visits[0], keys) + AllOffers(visits[1..], keys)
  }

  function FirstNonEmpty(xs: seq<string>): string {
    if xs == [] then "" else if xs[0] != "" then xs[0] else FirstNonEmpty(xs[1..])
  }

  /** The first of a list that is not empty, or nothing if all are. */
  lemma {:induction false} FirstNonEmptyIsFirst(xs: seq<string>)
    ensures var r := FirstNonEmpty(xs);
      if r == "" then forall i :: 0 <= i < |xs| ==> xs[i] == ""
      else exists i :: 0 <= i < |xs| && xs[i] == r && forall j :: 0 <= j < i ==> xs[j] == ""
  {
    if xs != [] && xs[0] == "" {
      var r := FirstNonEmpty(xs);
      FirstNonEmptyIsFirst(xs[1..]);
      if r != "" {
        var i :| 0 <= i < |xs[1..]| && xs[1..][i] == r && forall j :: 0 <= j < i ==> xs[1..][j] == "";
        assert xs[i + 1] == r;
        forall j | 0 <= j < i + 1 ensures xs[j] == "" { if j > 0 { assert xs[1..][j - 1] == ""; } }
      } else {
        forall i | 0 <= i < |xs| ensures xs[i] == "" { if i > 0 { assert xs[1..][i - 1] == ""; } }
      }
    }
  }

  lemma {:induction false} FirstOfTwo(xs: seq<string>, ys: seq<string>)
    ensures FirstNonEmpty(xs + ys) == if FirstNonEmpty(xs) != "" then FirstNonEmpty(xs) else FirstNonEmpty(ys)
  {
    if xs == [] {
      assert xs + ys == ys;
    } else {
      assert (xs + ys)[1..] == xs[1..] + ys;
      FirstOfTwo(xs[1..], ys);
    }
  }

  lemma {:induction false} AddressOfOne(known: string, values: Attrs, keys: seq<string>)
    ensures AfterAddress(known, values, keys) == if known != "" then known else FirstNonEmpty(Offers(values, keys))
    decreases |keys|
  {
    hide StringValue, TerraformValue;
    if keys != [] {
      var next := if keys[0] in values && known == "" then StringValue(TerraformValue(values[keys[0]])) else known;
      AddressOfOne(next, values, keys[1..]);
      var offers := Offers(values, keys[1..]);
      assert [] + offers == offers;
      if keys[0] in values {
        var offer := StringValue(TerraformValue(values[keys[0]]));
        assert ([offer] + offers)[1..] == offers;
      }
    }
  }

  // ---------------------------------------------------------------- one node

  function Candidates(values: Attrs, keys: seq<string>): seq<string> {
    if keys == [] then [] else [StringValue(At(values, keys[0]))] + Candidates(values, keys[1..])
  }

  lemma {:induction false} FirstStringIsFirst(values: Attrs, keys: seq<string>)
    ensures FirstString(values, keys) == FirstNonEmpty(Candidates(values, keys))
  {
    hide StringValue, At;
    if keys != [] {
      FirstStringIsFirst(values, keys[1..]);
      var all := Candidates(values, keys);
      assert all[1..] == Candidates(values, keys[1..]);
    }
  }

  /** The fields of a node are its first candidates that are not empty, an internal address standing in for a name. */
  lemma NodeHasFirstCandidates(values: Attrs, role: string)
    ensures var name := FirstNonEmpty(Candidates(values, NAME_KEYS));
      var internalIP := FirstNonEmpty(Candidates(values, INTERNAL_KEYS));
      var externalIP := FirstNonEmpty(Candidates(values, EXTERNAL_KEYS));
      NodeFromMap(values, role) ==
        if name == "" && internalIP == "" && externalIP == "" then None
        else Some(Node(FirstOf(name, internalIP), role, internalIP, externalIP, OPENTOFU_STATE))
  {
    hide StringValue, At, FirstString, Candidates, FirstNonEmpty;
    FirstStringIsFirst(values, NAME_KEYS);
    FirstStringIsFirst(values, INTERNAL_KEYS);
    FirstStringIsFirst(values, EXTERNAL_KEYS);
  }

  /** A node map somewhere in the value, not inside another node map, gives this node. */
  predicate Gives(raw: Value, role: string, node: Node)
    decreases raw
  {
    match raw
    case List(items) => exists i :: 0 <= i < |items| && Gives(items[i], role, node)
    case Fields(value) =>
      if LooksLikeNodeMap(value) then NodeFromMap(value, role) == Some(node)
      else exists k :: k in value && Gives(value[k], role, node)
    case _ => false
  }

  /** The flattened list holds exactly the nodes of the node maps in the value. */
  lemma {:induction false} FlattenMembers(raw: Value, role: string, node: Node)
    ensures node in Flatten(raw, role) <==> Gives(raw, role, node)
    decreases raw, 1, 0
  {
    hide LooksLikeNodeMap, NodeFromMap, KeysInOrder, Flatten, FlattenItems, FlattenKeys;
    match raw {
      case List(items) =>
        FlattenList(raw, role);
        ItemsMembers(raw, 0, role, node);
      case Fields(value) =>
        FlattenMap(raw, role);
        if !LooksLikeNodeMap(value) {
          KeysInOrderFacts(value.Keys);
          KeysMembers(raw, KeysInOrder(value.Keys), role, node);
        }
      case _ => FlattenOther(raw, role);
    }
  }

  lemma {:induction false} ItemsMembers(raw: Value, i: nat, role: string, node: Node)
    requires raw.List? && i <= |raw.items|
    ensures node in FlattenItems(raw, i, role) <==> exists j :: i <= j < |raw.items| && Gives(raw.items[j], role, node)
    decreases raw, 0, |raw.items| - i
  {
    hide Gives, Flatten, FlattenItems;
    FlattenItemsStep(raw, i, role);
    if i < |raw.items| {
      FlattenMembers(raw.items[i], role, node);
      ItemsMembers(raw, i + 1, role, node);
    }
  }

  lemma {:induction false} KeysMembers(raw: Value, keys: seq<string>, role: string, node: Node)
    requires raw.Fields? && forall k :: k in keys ==> k in raw.fields
    ensures node in FlattenKeys(raw, keys, role) <==> exists k :: k in keys && Gives(raw.fields[k], role, node)
    decreases raw, 0, |keys|
  {
    hide Gives, Flatten, FlattenKeys;
    FlattenKeysStep(raw, keys, role);
    if keys != [] {
      assert keys == [keys[0]] + keys[1..];
      FlattenMembers(raw.fields[keys[0]], role, node);
      KeysMembers(raw, keys[1..], role, node);
    }
  }

  // ---------------------------------------------------------------- a whole state

  ghost function AllNodes(visits: seq<Attrs>): seq<Node> {
    if visits == [] then [] else ListedNodes(visits[0], 0) + AllNodes(visits[1..])
  }

  lemma {:induction false} AfterAllIs(s: Snapshot, visits: seq<Attrs>)
    ensures AfterAll(s, visits) == Snapshot(
      FirstOf(s.apiVIP, FirstNonEmpty(AllOffers(visits, API_VIP_KEYS))),
      FirstOf(s.internalVIP, FirstNonEmpty(AllOffers(visits, INTERNAL_VIP_KEYS))),
      FirstOf(s.bastionFloatingIP, FirstNonEmpty(AllOffers(visits, BASTION_KEYS))),
      AppendNodes(s.nodes, AllNodes(visits)))
    decreases |visits|
  {
    hide AfterAddress, ListedNodes, AppendNodes, Offers, FirstNonEmpty;
    NothingOffered();
    if visits != [] {
      var v, rest := visits[0], visits[1..];
      AfterAllIs(AfterValues(s, v), rest);
      forall known, keys: seq<string>
        ensures FirstOf(AfterAddress(known, v, keys), FirstNonEmpty(AllOffers(rest, keys))) ==
          FirstOf(known, FirstNonEmpty(Offers(v, keys) + AllOffers(rest, keys)))
      {
        AddressOfOne(known, v, keys);
        FirstOfTwo(Offers(v, keys), AllOffers(rest, keys));
      }
      AppendInTwo(s.nodes, ListedNodes(v, 0), AllNodes(rest));
    }
  }

  lemma NothingOffered()
    ensures FirstNonEmpty([]) == "" && forall nodes :: AppendNodes(nodes, []) == nodes
  {
  }

  // ---------------------------------------------------------------- where the nodes of a state come from

  predicate NulFreeValue(raw: Value)
    decreases raw
  {
    match raw
    case Text(text) => '\0' !in text
    case List(items) => forall i :: 0 <= i < |items| ==> NulFreeValue(items[i])
    case Fields(fields) => forall k :: k in fields ==> NulFreeValue(fields[k])
    case _ => true
  }

  predicate NulFreeAttrs(values: Attrs) {
    forall k :: k in values ==> NulFreeValue(values[k])
  }

  lemma StringIsNulFree(raw: Value)
    requires NulFreeValue(raw)
    ensures '\0' !in StringValue(raw)
  {
    if raw.Text? { TrimIsInside(raw.text); }
  }

  lemma {:induction false} FirstStringIsNulFree(values: Attrs, keys: seq<string>)
    requires NulFreeAttrs(values)
    ensures '\0' !in FirstString(values, keys)
  {
    hide StringValue, NulFreeValue;
    if keys != [] {
      StringOfNull();
      if keys[0] in values { StringIsNulFree(values[keys[0]]); }
      FirstStringIsNulFree(values, keys[1..]);
    }
  }

  lemma StringOfNull()
    ensures StringValue(Null) == ""
  {
  }

  /** A node read from a value carries the role and the source; it is NUL-free if the value is. */
  lemma {:induction false} GivenNode(raw: Value, role: string, node: Node)
    requires Gives(raw, role, node)
    ensures node.source == OPENTOFU_STATE && node.role == role
    ensures NulFreeValue(raw) && '\0' !in role ==> Clean(node)
    decreases raw
  {
    hide LooksLikeNodeMap, FirstString;
    match raw
    case List(items) =>
      var i :| 0 <= i < |items| && Gives(items[i], role, node);
      GivenNode(items[i], role, node);
    case Fields(value) =>
      if LooksLikeNodeMap(value) {
        if NulFreeValue(raw) {
          FirstStringIsNulFree(value, NAME_KEYS);
          FirstStringIsNulFree(value, INTERNAL_KEYS);
          FirstStringIsNulFree(value, EXTERNAL_KEYS);
        }
      } else {
        var k :| k in value && Gives(value[k], role, node);
        GivenNode(value[k], role, node);
      }
  }

  lemma {:induction false} ListedNode(values: Attrs, i: nat, node: Node)
    requires i <= |NODE_LISTS| && node in ListedNodes(values, i)
    ensures node.source == OPENTOFU_STATE && (NulFreeAttrs(values) ==> Clean(node))
    decreases |NODE_LISTS| - i
  {
    hide Gives, Clean, NulFreeValue, Flatten;
    var raw, role := TerraformValue(At(values, NODE_LISTS[i].0)), NODE_LISTS[i].1;
    if node in Flatten(raw, role) {
      FlattenMembers(raw, role, node);
      GivenNode(raw, role, node);
      if NulFreeAttrs(values) { TerraformValueIsNulFree(values, NODE_LISTS[i].0); }
      RolesAreNulFree(i);
    } else {
      ListedNode(values, i + 1, node);
    }
  }

  lemma TerraformValueIsNulFree(values: Attrs, key: string)
    requires NulFreeAttrs(values)
    ensures NulFreeValue(TerraformValue(At(values, key)))
  {
  }

  lemma RolesAreNulFree(i: nat)
    requires i < |NODE_LISTS|
    ensures '\0' !in NODE_LISTS[i].1
  {
  }

  lemma {:induction false} StateNode(visits: seq<Attrs>, node: Node)
    requires node in AllNodes(visits)
    ensures node.source == OPENTOFU_STATE && ((forall v :: v in visits ==> NulFreeAttrs(v)) ==> Clean(node))
  {
    hide Clean, NulFreeAttrs, ListedNodes;
    assert visits == [visits[0]] + visits[1..];
    if node in ListedNodes(visits[0], 0) {
      ListedNode(visits[0], 0, node);
    } else {
      StateNode(visits[1..], node);
    }
  }

  /** All values maps are NUL-free. */
  ghost predicate NulFreeVisits(visits: seq<Attrs>) {
    forall v :: v in visits ==> NulFreeAttrs(v)
  }

  lemma NulFreeConcat(a: seq<Attrs>, b: seq<Attrs>)
    requires NulFreeVisits(a) && NulFreeVisits(b)
    ensures NulFreeVisits(a + b)
  {
    hide NulFreeAttrs;
  }

  lemma FieldIsNulFree(values: Attrs, key: string)
    requires NulFreeAttrs(values)
    ensures NulFreeValue(At(values, key))
    ensures FieldsAt(values, key).Some? ==> NulFreeAttrs(FieldsAt(values, key).value)
    ensures forall item :: item in ItemsAt(values, key) ==> NulFreeValue(item)
  {
    hide NulFreeAttrs;
    assert NulFreeValue(At(values, key)) by { FieldValueIsNulFree(values, key); }
    NulFreeParts(At(values, key));
  }

  lemma FieldValueIsNulFree(values: Attrs, key: string)
    requires NulFreeAttrs(values)
    ensures NulFreeValue(At(values, key))
  {
  }

  lemma NulFreeParts(raw: Value)
    requires NulFreeValue(raw)
    ensures NulFreeAttrs(FieldsOf(raw))
    ensures raw.List? ==> forall item :: item in raw.items ==> NulFreeValue(item)
  {
  }

  lemma {:induction false} InsideIsNulFree(items: seq<Value>, key: string)
    requires forall item :: item in items ==> NulFreeValue(item)
    ensures NulFreeVisits(Inside(items, key))
  {
    hide NulFreeValue, NulFreeAttrs, FieldsAt;
    if items != [] {
      NulFreeParts(items[0]);
      FieldIsNulFree(FieldsOf(items[0]), key);
      InsideIsNulFree(items[1..], key);
    }
  }

  lemma OutputsAreNulFree(m: Attrs)
    requires NulFreeAttrs(m)
    ensures NulFreeVisits(OutputVisits(m))
  {
    hide NulFreeAttrs;
    FieldIsNulFree(m, "outputs");
  }

  lemma {:induction false} ModuleIsNulFree(module_: Value)
    requires module_.Fields? && NulFreeValue(module_)
    ensures NulFreeVisits(ModuleVisits(module_))
    decreases module_, 1, 0
  {
    hide NulFreeAttrs, NulFreeVisits, Inside, ModuleVisits, ChildVisits, NulFreeValue;
    var m := module_.fields;
    ModuleVisitsAre(module_);
    NulFreeParts(module_);
    if At(m, "root_module").Fields? {
      FieldIsNulFree(m, "root_module");
      ModuleIsNulFree(m["root_module"]);
    } else {
      OutputsAreNulFree(m);
      FieldIsNulFree(m, "resources");
      InsideIsNulFree(ItemsAt(m, "resources"), "values");
      NulFreeConcat(OutputVisits(m), Inside(ItemsAt(m, "resources"), "values"));
      NoVisits();
      if At(m, "child_modules").List? {
        FieldIsNulFree(m, "child_modules");
        ChildrenAreNulFree(m["child_modules"], 0);
      }
      NulFreeConcat(OutputVisits(m) + Inside(ItemsAt(m, "resources"), "values"), ChildModuleVisits(m));
    }
  }

  lemma NoVisits()
    ensures NulFreeVisits([])
  {
  }

  lemma {:induction false} ChildrenAreNulFree(children: Value, i: nat)
    requires children.List? && i <= |children.items| && NulFreeValue(children)
    ensures NulFreeVisits(ChildVisits(children, i))
    decreases children, 0, |children.items| - i
  {
    hide NulFreeVisits, ModuleVisits, ChildVisits, NulFreeValue;
    ChildVisitsStep(children, i);
    NoVisits();
    if i < |children.items| {
      NulFreeParts(children);
      var child := children.items[i];
      if child.Fields? { ModuleIsNulFree(child); }
      ChildrenAreNulFree(children, i + 1);
      NulFreeConcat(if child.Fields? then ModuleVisits(child) else [], ChildVisits(children, i + 1));
    }
  }

  lemma {:induction false} ResourcesAreNulFree(resources: seq<Value>)
    requires forall item :: item in resources ==> NulFreeValue(item)
    ensures NulFreeVisits(ResourceVisits(resources))
  {
    hide NulFreeVisits, NulFreeValue, NulFreeAttrs, Inside;
    NoVisits();
    if resources != [] {
      NulFreeParts(resources[0]);
      var fields := FieldsOf(resources[0]);
      FieldIsNulFree(fields, "instances");
      InsideIsNulFree(ItemsAt(fields, "instances"), "attributes");
      ResourcesAreNulFree(resources[1..]);
      NulFreeConcat(Inside(ItemsAt(fields, "instances"), "attributes"), ResourceVisits(resources[1..]));
    }
  }

  lemma VisitsAreNulFree(state: Attrs)
    requires NulFreeAttrs(state)
    ensures NulFreeVisits(StateVisits(state))
  {
    hide NulFreeVisits, NulFreeValue, NulFreeAttrs, ModuleVisits, ResourceVisits, OutputVisits;
    NoVisits();
    OutputsAreNulFree(state);
    FieldIsNulFree(state, "values");
    FieldIsNulFree(state, "resources");
    var values := if At(state, "values").Fields? then ModuleVisits(state["values"]) else [];
    if At(state, "values").Fields? { ModuleIsNulFree(state["values"]); }
    ResourcesAreNulFree(ItemsAt(state, "resources"));
    NulFreeConcat(OutputVisits(state), values);
    NulFreeConcat(OutputVisits(state) + values, ResourceVisits(ItemsAt(state, "resources")));
  }

  // ---------------------------------------------------------------- the inventory of a state

  /** The inventory of any state: the first occurrences of its nodes, and for each address the first candidate. */
  lemma InventoryOfState(state: Attrs)
    ensures var visits := StateVisits(state); AfterAll(NOTHING, visits) == Snapshot(
      FirstNonEmpty(AllOffers(visits, API_VIP_KEYS)), FirstNonEmpty(AllOffers(visits, INTERNAL_VIP_KEYS)),
      FirstNonEmpty(AllOffers(visits, BASTION_KEYS)), FirstOccurrences(AllNodes(visits)))
  {
    hide AppendNodes, AllNodes, AllOffers, FirstNonEmpty, StateVisits, AfterAll;
    var visits := StateVisits(state);
    AfterAllIs(NOTHING, visits);
    var all := AllNodes(visits);
    forall i | 0 <= i < |all| ensures all[i].source != "" { StateNode(visits, all[i]); }
    AppendedAreFirstOccurrences(all);
  }

  /** For a state without NUL in its strings, every node in it is in its inventory, up to repetition. */
  lemma NoNodeOfStateDropped(state: Attrs, node: Node)
    requires NulFreeAttrs(state) && node in AllNodes(StateVisits(state))
    ensures var nodes := AfterAll(NOTHING, StateVisits(state)).nodes;
      exists i :: 0 <= i < |nodes| && SameNode(nodes[i], node)
  {
    hide AllNodes, StateVisits, AfterAll, FirstOccurrences, NulFreeAttrs, SameNode, Clean;
    var visits := StateVisits(state);
    InventoryOfState(state);
    VisitsAreNulFree(state);
    forall n | n in AllNodes(visits) ensures Clean(n) { StateNode(visits, n); }
    NoneDropped(AllNodes(visits), node);
  }
}
