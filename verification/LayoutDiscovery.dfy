/** What cmd/cluster_migrate_layout.go takes for a legacy layout, and the clusters it finds there. */
module LayoutDiscovery {
  import opened Paths
  import opened Sequences
  import opened StringSets
  import opened Text
  import opened LayoutMoves
  import opened LayoutPlan

  /** What os.Stat and os.ReadDir tell apart: below a file, a path is not just missing. */
  datatype Stat = Found | Missing | Unreadable

  function StatOf(tree: Tree, path: Path): Stat {
    if Exists(tree, path) then Found else if HasParents(tree, path) then Missing else Unreadable
  }

  predicate IsDirectory(tree: Tree, path: Path) {
    exists p :: p in tree && path < p
  }

  const INFRASTRUCTURE := ["infrastructure", "clusters"]

  ghost predicate HasConfig(tree: Tree, legacy: Path) {
    exists name :: IsConfigName(name) && Exists(tree, legacy + [name])
  }

  /** A Git repository with a secrets or clusters directory, or a cluster config, in it. */
  ghost predicate IsLegacyLayout(tree: Tree, legacy: Path) {
    && StatOf(tree, legacy + [".git"]) == Found
    && match StatOf(tree, legacy + ["secrets"])
      case Unreadable => false
      case Found => true
      case Missing =>
        match StatOf(tree, legacy + INFRASTRUCTURE)
        case Unreadable => false
        case Found => true
        case Missing => HasConfig(tree, legacy)
  }

  /** The clusters directory cannot be listed: it, or something above it, is a file. */
  predicate NoDirectory(tree: Tree, dir: Path) {
    exists p :: p in tree && p <= dir
  }

  ghost predicate Migratable(tree: Tree, legacy: Path) {
    IsLegacyLayout(tree, legacy) && !NoDirectory(tree, legacy + INFRASTRUCTURE)
  }

  /** A cluster has a config, or a directory among the clusters. */
  predicate IsCluster(tree: Tree, legacy: Path, c: string) {
    c != "" && (Exists(tree, legacy + SourceIn(Config(c))) || IsDirectory(tree, legacy + INFRASTRUCTURE + [c]))
  }

  /** Every cluster once, in order. */
  ghost predicate Discovers(tree: Tree, legacy: Path, clusters: seq<string>) {
    Distinct(clusters) && Sorted(clusters) && forall c :: c in clusters <==> IsCluster(tree, legacy, c)
  }

  lemma DiscoveredDistinct(tree: Tree, legacy: Path, clusters: seq<string>)
    requires Discovers(tree, legacy, clusters)
    ensures Distinct(clusters)
  {
  }

  predicate AllValid(layout: Layout, clusters: seq<string>) {
    forall c :: c in clusters ==> ValidPaths(layout, c)
  }

  /** filepath.Glob for .*-config.yaml */
  method GlobConfigs(tree: Tree, legacy: Path) returns (names: seq<string>)
    ensures forall n :: n in names <==> IsConfigName(n) && Exists(tree, legacy + [n])
    ensures |names| > 0 <==> HasConfig(tree, legacy)
  {
    hide IsConfigName, Exists;
    var entries := ReadDir(tree, legacy);
    names := [];
    for k := 0 to |entries|
      invariant forall n :: n in names <==> IsConfigName(n) && n in entries[..k]
    {
      assert entries[..k + 1] == entries[..k] + [entries[k]];
      if IsConfigName(entries[k]) { names := names + [entries[k]]; }
    }
    if |names| > 0 { assert names[0] in names; }
  }

  method EnsureLegacyLayoutForMigration(tree: Tree, legacy: Path) returns (ok: bool)
    ensures ok <==> IsLegacyLayout(tree, legacy)
  {
    hide Exists, StatOf, HasConfig;
    if StatOf(tree, legacy + [".git"]) != Found { return false; }
    var hasLegacyMarker := false;
    var markers := [legacy + ["secrets"], legacy + INFRASTRUCTURE];
    ghost var secrets, infra := StatOf(tree, markers[0]), StatOf(tree, markers[1]);
    var i := 0;
    while i < |markers|
      invariant 0 <= i <= 2 && !hasLegacyMarker
      invariant (i > 0 ==> secrets == Missing) && (i > 1 ==> infra == Missing)
    {
      var stat := StatOf(tree, markers[i]);
      assert stat == if i == 0 then secrets else infra;
      if stat == Found {
        hasLegacyMarker := true;
        break;
      } else if stat != Missing {
        return false;
      }
      i := i + 1;
    }
    var matches := GlobConfigs(tree, legacy);
    if |matches| > 0 { hasLegacyMarker := true; }
    ok := hasLegacyMarker;
  }

  /** The name between the dot and -config.yaml */
  function ClusterName(name: string): string
    requires IsConfigName(name)
  {
    ConfigNameLong(name);
    name[1..|name| - 12]
  }

  lemma ConfigNameLong(name: string)
    requires IsConfigName(name)
    ensures |name| >= 13
  {
    assert name[0] == '.' && name[|name| - 12..][0] == '-';
  }

  lemma ConfigNameOf(name: string)
    ensures IsConfigName(name) ==> SourceIn(Config(ClusterName(name))) == [name]
    ensures forall c :: SourceIn(Config(c)) == [name] ==> IsConfigName(name) && ClusterName(name) == c
  {
    if IsConfigName(name) {
      ConfigNameLong(name);
      assert name[..1] == "." && name == name[..1] + name[1..|name| - 12] + name[|name| - 12..];
    }
    forall c | SourceIn(Config(c)) == [name] ensures IsConfigName(name) && ClusterName(name) == c {
      assert name == "." + c + "-config.yaml";
      assert name[|name| - 12..] == "-config.yaml" && name[1..|name| - 12] == c;
    }
  }

  method ConfigClusters(tree: Tree, legacy: Path) returns (clusters: set<string>)
    ensures forall c :: c in clusters <==> c != "" && Exists(tree, legacy + SourceIn(Config(c)))
  {
    hide IsConfigName, Exists, SourceIn, ClusterName;
    var files := GlobConfigs(tree, legacy);
    clusters := {};
    for k := 0 to |files|
      invariant forall c :: c in clusters ==> c != "" && Exists(tree, legacy + SourceIn(Config(c)))
      invariant forall j :: 0 <= j < k ==> ClusterName(files[j]) == "" || ClusterName(files[j]) in clusters
    {
      assert files[k] in files;
      var name := ClusterName(files[k]);
      ConfigNameOf(files[k]);
      if name != "" { clusters := clusters + {name}; }
    }
    forall c | c != "" && Exists(tree, legacy + SourceIn(Config(c))) ensures c in clusters {
      OneName(c);
      ConfigNameOf(SourceIn(Config(c))[0]);
      assert SourceIn(Config(c))[0] in files;
    }
  }

  lemma OneName(c: string)
    ensures SourceIn(Config(c)) == [SourceIn(Config(c))[0]]
  {
  }

  method ListNames(clusters: set<string>) returns (names: seq<string>)
    ensures Distinct(names) && Sorted(names) && forall c :: c in names <==> c in clusters
  {
    var left := clusters;
    var found: seq<string> := [];
    while left != {}
      invariant left <= clusters && Distinct(found) && forall c :: c in found <==> c in clusters - left
      decreases |left|
    {
      var c :| c in left;
      DistinctConcat(found, [c]);
      found, left := found + [c], left - {c};
    }
    names := SortedCopy(found);
    DistinctShuffled(found, names);
    forall c ensures c in names <==> c in found { assert c in multiset(names) <==> c in multiset(found); }
  }

  method DiscoverLegacyLayoutClusters(tree: Tree, legacy: Path) returns (names: Option<seq<string>>)
    ensures names.None? <==> NoDirectory(tree, legacy + INFRASTRUCTURE)
    ensures names.Some? ==> Discovers(tree, legacy, names.value)
  {
    hide Exists, IsDirectory, SourceIn, Distinct, Sorted;
    var clusters := ConfigClusters(tree, legacy);
    var infraDir := legacy + INFRASTRUCTURE;
    if NoDirectory(tree, infraDir) { return None; }
    var entries := ReadDir(tree, infraDir);
    ghost var configured := clusters;
    for k := 0 to |entries|
      invariant forall c :: c in clusters <==>
        c in configured || (c != "" && c in entries[..k] && IsDirectory(tree, infraDir + [c]))
    {
      assert entries[..k + 1] == entries[..k] + [entries[k]];
      if IsDirectory(tree, infraDir + [entries[k]]) && entries[k] != "" { clusters := clusters + {entries[k]}; }
    }
    forall c | IsDirectory(tree, infraDir + [c]) ensures c in entries { DirectoryExists(tree, infraDir + [c]); }
    var all := ListNames(clusters);
    names := Some(all);
  }

  lemma DirectoryExists(tree: Tree, path: Path)
    requires IsDirectory(tree, path)
    ensures Exists(tree, path)
  {
  }
}
