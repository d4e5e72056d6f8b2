/**
 * The migration plan of cmd/cluster_migrate_layout.go: what it lists, and when running it moves
 * everything once.
 */
module LayoutPlan {
  import opened Paths
  import opened Sequences
  import opened Text
  import opened LayoutMoves

  /** The legacy organization directory, and the organization's directory in each of the three zones. */
  datatype Layout = Layout(legacy: Path, gitops: Path, state: Path, secrets: Path)

  /** What a move of the plan is about. */
  datatype Item =
    | Config(cluster: string)
    | Key(cluster: string)
    | PublicKey(cluster: string)
    | Ssh(cluster: string, name: string)
    | GitOps(name: string)

  function SourceIn(item: Item): Path {
    match item
    case Config(c) => ["." + c + "-config.yaml"]
    case Key(c) => ["secrets", "age", "keys", c + "-key.txt"]
    case PublicKey(c) => ["secrets", "age", "keys", c + "-key.txt.pub"]
    case Ssh(_, n) => ["secrets", "ssh", n]
    case GitOps(n) => [n]
  }

  function DestinationIn(item: Item): Path {
    match item
    case Config(c) => [c, c + "-config.yaml"]
    case Key(c) => [c, "age", "keys", c + "-key.txt"]
    case PublicKey(c) => [c, "age", "keys", c + "-key.txt.pub"]
    case Ssh(c, n) => [c, "ssh", n]
    case GitOps(n) => [n]
  }

  function Zone(layout: Layout, item: Item): Path {
    match item
    case Config(_) => layout.state
    case Key(_) => layout.secrets
    case PublicKey(_) => layout.secrets
    case Ssh(_, _) => layout.secrets
    case GitOps(_) => layout.gitops
  }

  function MoveOf(layout: Layout, item: Item): Move {
    Move(layout.legacy + SourceIn(item), Zone(layout, item) + DestinationIn(item), item.Config?)
  }

  predicate HasSuffix(s: string, suffix: string) {
    |suffix| <= |s| && s[|s| - |suffix|..] == suffix
  }

  predicate IsConfigName(name: string) {
    "." <= name && HasSuffix(name, "-config.yaml")
  }

  /** legacySSHKeyMoves gives a file to every cluster that claims it. */
  predicate Claims(cluster: string, name: string) {
    name == cluster || name == cluster + ".pub" || cluster + "-" <= name
  }

  predicate Listed(tree: Tree, layout: Layout, clusters: seq<string>, item: Item) {
    var from := layout.legacy + SourceIn(item);
    match item
    case Config(c) => c in clusters && Exists(tree, from)
    case Key(c) => c in clusters && Exists(tree, from)
    case PublicKey(c) => c in clusters && Exists(tree, from)
    case Ssh(c, n) => c in clusters && Claims(c, n) && from in tree
    case GitOps(n) => n != "secrets" && !IsConfigName(n) && Exists(tree, from)
  }

  /** plan lists the moves of items, in their order; items holds every listed item once. */
  ghost predicate Plans(tree: Tree, layout: Layout, clusters: seq<string>, items: seq<Item>, plan: seq<Move>) {
    && plan == MovesOf(layout, items)
    && Distinct(items)
    && forall item :: item in items <==> Listed(tree, layout, clusters, item)
  }

  function MovesOf(layout: Layout, items: seq<Item>): (moves: seq<Move>)
    ensures |moves| == |items| && forall i :: 0 <= i < |items| ==> moves[i] == MoveOf(layout, items[i])
  {
    seq(|items|, i requires 0 <= i < |items| => MoveOf(layout, items[i]))
  }

  // ---------------------------------------------------------------- building the plan

  /** os.ReadDir, the entries in some order: the files and directories of a directory, each once. */
  method ReadDir(tree: Tree, dir: Path) returns (names: seq<string>)
    ensures Distinct(names)
    ensures forall n :: n in names <==> Exists(tree, dir + [n])
  {
    var left := set p | p in tree && dir < p :: p[|dir|];
    names := [];
    ghost var all := left;
    while left != {}
      invariant Distinct(names) && forall n :: n in all <==> n in left || n in names
      invariant forall n :: n in left ==> n !in names
      decreases |left|
    {
      var n :| n in left;
      names, left := names + [n], left - {n};
    }
    forall n ensures n in all <==> Exists(tree, dir + [n]) {
      EntryExists(tree, dir, n);
    }
  }

  lemma EntryExists(tree: Tree, dir: Path, n: string)
    ensures Exists(tree, dir + [n]) <==> n in set p | p in tree && dir < p :: p[|dir|]
  {
  }

  method LegacySSHKeyMoves(tree: Tree, layout: Layout, cluster: string)
    returns (moves: seq<Move>, ghost items: seq<Item>)
    ensures forall name :: MoveOf(layout, Ssh(cluster, name)) in moves <==>
      Claims(cluster, name) && layout.legacy + ["secrets", "ssh", name] in tree
    ensures moves == MovesOf(layout, items) && Distinct(items)
    ensures forall item :: item in items <==>
      item.Ssh? && item.cluster == cluster && Claims(cluster, item.name) && layout.legacy + SourceIn(item) in tree
  {
    var sshDir := layout.legacy + ["secrets", "ssh"];
    var entries := ReadDir(tree, sshDir);
    moves, items := [], [];
    for k := 0 to |entries|
      invariant moves == MovesOf(layout, items) && Distinct(items)
      invariant forall item :: item in items <==>
        item.Ssh? && item.cluster == cluster && Claims(cluster, item.name) && item.name in entries[..k]
          && sshDir + [item.name] in tree
    {
      var name := entries[k];
      assert entries[..k + 1] == entries[..k] + [name];
      if sshDir + [name] !in tree { continue; }
      if name != cluster && name != cluster + ".pub" && !(cluster + "-" <= name) { continue; }
      ghost var item := Ssh(cluster, name);
      assert layout.legacy + SourceIn(item) == sshDir + [name];
      moves := moves + [Move(sshDir + [name], layout.secrets + [cluster, "ssh", name], false)];
      DistinctConcat(items, [item]);
      items := items + [item];
    }
    forall item: Item | item.Ssh? ensures layout.legacy + SourceIn(item) == sshDir + [item.name] {}
    forall n | sshDir + [n] in tree ensures n in entries { assert Exists(tree, sshDir + [n]); }
    forall name ensures MoveOf(layout, Ssh(cluster, name)) in moves <==> Ssh(cluster, name) in items {
      MoveTells(layout, items, Ssh(cluster, name));
    }
  }

  /** Among moves of one kind, the source tells which item a move is for. */
  lemma MoveTells(layout: Layout, items: seq<Item>, item: Item)
    requires forall x :: x in items ==>
      (x.Ssh? && item.Ssh? && x.cluster == item.cluster) || (x.GitOps? && item.GitOps?)
    ensures MoveOf(layout, item) in MovesOf(layout, items) <==> item in items
  {
    forall x | x in items ensures MoveOf(layout, x) == MoveOf(layout, item) <==> x == item {
      var p, q := layout.legacy + SourceIn(x), layout.legacy + SourceIn(item);
      assert p[|p| - 1] == x.name && q[|q| - 1] == item.name;
    }
    if item in items {
      var i :| 0 <= i < |items| && items[i] == item;
      assert MovesOf(layout, items)[i] == MoveOf(layout, item);
    }
  }

  method LegacyGitOpsMoves(tree: Tree, layout: Layout) returns (moves: seq<Move>, ghost items: seq<Item>)
    ensures forall name :: MoveOf(layout, GitOps(name)) in moves <==>
      name != "secrets" && !IsConfigName(name) && Exists(tree, layout.legacy + [name])
    ensures moves == MovesOf(layout, items) && Distinct(items)
    ensures forall item :: item in items <==> item.GitOps? && Listed(tree, layout, [], item)
  {
    hide MovesOf, Exists;
    var entries := ReadDir(tree, layout.legacy);
    moves, items := [], [];
    EmptyPlan(layout);
    if Exists(tree, layout.legacy + [".git"]) {
      AppendItem(layout, items, GitOps(".git"));
      moves, items := moves + [Move(layout.legacy + [".git"], layout.gitops + [".git"], false)],
        items + [GitOps(".git")];
    }
    for k := 0 to |entries|
      invariant moves == MovesOf(layout, items) && Distinct(items)
      invariant forall item :: item in items <==>
        item.GitOps? && Listed(tree, layout, [], item) && (item.name == ".git" || item.name in entries[..k])
    {
      var name := entries[k];
      assert entries[..k + 1] == entries[..k] + [name];
      if name == ".git" || name == "secrets" || (HasSuffix(name, "-config.yaml") && "." <= name) { continue; }
      moves := moves + [Move(layout.legacy + [name], layout.gitops + [name], false)];
      AppendItem(layout, items, GitOps(name));
      items := items + [GitOps(name)];
    }
    forall name ensures MoveOf(layout, GitOps(name)) in moves <==> GitOps(name) in items {
      MoveTells(layout, items, GitOps(name));
    }
  }

  /** ClusterPaths.Validate: nothing private at or inside the GitOps directory. */
  predicate ValidPaths(layout: Layout, cluster: string) {
    && !(layout.gitops <= layout.state + [cluster])
    && !(layout.gitops <= layout.secrets + [cluster])
    && !(layout.gitops <= layout.state + DestinationIn(Config(cluster)))
    && !(layout.gitops <= layout.secrets + DestinationIn(Key(cluster)))
    && !(layout.gitops <= layout.secrets + DestinationIn(Ssh(cluster, cluster)))
  }

  lemma AppendItem(layout: Layout, items: seq<Item>, item: Item)
    requires Distinct(items) && item !in items
    ensures Distinct(items + [item])
      && MovesOf(layout, items + [item]) == MovesOf(layout, items) + [MoveOf(layout, item)]
    ensures forall x :: x in items + [item] <==> x in items || x == item
  {
  }

  /** What buildLayoutMigrationPlan appends for one cluster. */
  method ClusterMoves(tree: Tree, layout: Layout, c: string) returns (moves: seq<Move>, ghost items: seq<Item>)
    ensures moves == MovesOf(layout, items) && Distinct(items)
    ensures forall item :: item in items <==> !item.GitOps? && Listed(tree, layout, [c], item)
  {
    hide HasSuffix, IsConfigName, Exists, Claims, MoveOf, MovesOf, SourceIn, Distinct;
    moves, items := [], [];
    EmptyPlan(layout);
    var config := layout.legacy + SourceIn(Config(c));
    if Exists(tree, config) {
      AppendItem(layout, items, Config(c));
      moves, items := moves + [MoveOf(layout, Config(c))], items + [Config(c)];
    }
    var key := layout.legacy + SourceIn(Key(c));
    if Exists(tree, key) {
      AppendItem(layout, items, Key(c));
      moves, items := moves + [MoveOf(layout, Key(c))], items + [Key(c)];
    }
    var publicKey := layout.legacy + SourceIn(PublicKey(c));
    if Exists(tree, publicKey) {
      AppendItem(layout, items, PublicKey(c));
      moves, items := moves + [MoveOf(layout, PublicKey(c))], items + [PublicKey(c)];
    }
    var ssh, sshItems := LegacySSHKeyMoves(tree, layout, c);
    DistinctConcat(items, sshItems);
    MovesOfConcat(layout, items, sshItems);
    moves, items := moves + ssh, items + sshItems;
  }

  lemma EmptyPlan(layout: Layout)
    ensures MovesOf(layout, []) == [] && Distinct<Item>([])
  {
  }

  lemma ListedByOwner(tree: Tree, layout: Layout, clusters: seq<string>, c: string, item: Item)
    requires !item.GitOps?
    ensures Listed(tree, layout, clusters + [c], item) <==>
      Listed(tree, layout, clusters, item) || Listed(tree, layout, [c], item)
    ensures Listed(tree, layout, clusters, item) ==> item.cluster in clusters
    ensures Listed(tree, layout, [c], item) ==> item.cluster == c
  {
  }

  lemma MovesOfConcat(layout: Layout, a: seq<Item>, b: seq<Item>)
    ensures MovesOf(layout, a + b) == MovesOf(layout, a) + MovesOf(layout, b)
  {
  }

  lemma GitOpsListed(tree: Tree, layout: Layout, clusters: seq<string>, item: Item)
    requires item.GitOps?
    ensures Listed(tree, layout, clusters, item) <==> Listed(tree, layout, [], item)
  {
  }

  method BuildLayoutMigrationPlan(tree: Tree, layout: Layout, clusters: seq<string>)
    returns (plan: Option<seq<Move>>, ghost items: seq<Item>)
    requires Distinct(clusters)
    ensures plan.Some? <==> forall c :: c in clusters ==> ValidPaths(layout, c)
    ensures plan.Some? ==> Plans(tree, layout, clusters, items, plan.value)
  {
    hide Listed, ValidPaths, MovesOf;
    var moves: seq<Move> := [];
    items := [];
    NothingListed(tree, layout);
    for k := 0 to |clusters|
      invariant forall c :: c in clusters[..k] ==> ValidPaths(layout, c)
      invariant moves == MovesOf(layout, items) && Distinct(items)
      invariant forall item :: item in items <==> !item.GitOps? && Listed(tree, layout, clusters[..k], item)
    {
      var c := clusters[k];
      assert clusters[..k + 1] == clusters[..k] + [c];
      if !ValidPaths(layout, c) { return None, []; }
      var more, mine := ClusterMoves(tree, layout, c);
      forall item: Item | !item.GitOps?
        ensures Listed(tree, layout, clusters[..k + 1], item) <==>
          Listed(tree, layout, clusters[..k], item) || Listed(tree, layout, [c], item)
        ensures !(Listed(tree, layout, clusters[..k], item) && Listed(tree, layout, [c], item))
      {
        ListedByOwner(tree, layout, clusters[..k], c, item);
      }
      DistinctConcat(items, mine);
      MovesOfConcat(layout, items, mine);
      moves, items := moves + more, items + mine;
    }
    assert clusters[..|clusters|] == clusters;
    var gitOps, gitOpsItems := LegacyGitOpsMoves(tree, layout);
    forall item: Item | item.GitOps?
      ensures Listed(tree, layout, clusters, item) <==> Listed(tree, layout, [], item)
    {
      GitOpsListed(tree, layout, clusters, item);
    }
    DistinctConcat(items, gitOpsItems);
    MovesOfConcat(layout, items, gitOpsItems);
    moves, items := moves + gitOps, items + gitOpsItems;
    plan := Some(moves);
  }

  lemma NothingListed(tree: Tree, layout: Layout)
    ensures MovesOf(layout, []) == []
    ensures forall item: Item :: !item.GitOps? ==> !Listed(tree, layout, [], item)
  {
  }

  predicate ValidateLayoutMovePlan(tree: Tree, plan: seq<Move>, force: bool) {
    forall m :: m in plan ==> Exists(tree, m.from) && (Exists(tree, m.to) ==> force)
  }
}
