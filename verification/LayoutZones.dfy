/** Where every file of a finished migration is, zone by zone, with the paths written out. */
module LayoutZones {
  import opened Paths
  import opened Text
  import opened LayoutMoves
  import opened LayoutPlan
  import opened LayoutForce
  import opened LayoutProofs
  import opened LayoutDiscovery

  /** The files at and below one path of the old tree are at and below another of the new one, unchanged. */
  ghost predicate Carried(tree: Tree, after: Tree, from: Path, to: Path) {
    forall rest: Path :: from + rest in tree ==> to + rest in after && after[to + rest] == tree[from + rest]
  }

  lemma ItemCarried(tree: Tree, layout: Layout, clusters: seq<string>, rewriter: Rewriter, items: seq<Item>,
                    plan: seq<Move>, base: Tree, after: Tree, item: Item, rest: Path)
    requires Plans(tree, layout, clusters, items, plan) && Apart(plan) && item in items
    requires Relocated(base, plan, after, rewriter) && MoveOf(layout, item).from + rest in base
    ensures var m := MoveOf(layout, item); var p := m.from + rest;
      && m.to + rest in after
      && after[m.to + rest] ==
        if item.Config? && rewriter(m.from, base[p]).Some? then rewriter(m.from, base[p]).value else base[p]
  {
    hide Relocated, Listed, MoveOf, MovesOf, Apart;
    InPlan(layout, items, item);
    ConfigRewrites(layout, item);
    var m := MoveOf(layout, item);
    MovedTo(plan, m, rest);
    Relocates(base, plan, after, rewriter, m.from + rest);
  }

  lemma MovedTo(plan: seq<Move>, m: Move, rest: Path)
    requires Apart(plan) && m in plan
    ensures Mover(plan, m.from + rest) == Some(m) && Target(plan, m.from + rest) == m.to + rest
  {
    hide Apart, Mover;
    OnlyMover(plan, m, m.from + rest);
    assert (m.from + rest)[|m.from|..] == rest;
  }

  lemma Relocates(base: Tree, plan: seq<Move>, after: Tree, rewriter: Rewriter, p: Path)
    requires Relocated(base, plan, after, rewriter) && p in base
    ensures Target(plan, p) in after && after[Target(plan, p)] == NewText(plan, p, base[p], rewriter)
  {
  }

  /** What a finished run has established. */
  ghost predicate Finished(tree: Tree, layout: Layout, clusters: seq<string>, rewriter: Rewriter, items: seq<Item>,
                           plan: seq<Move>, force: bool, after: Tree) {
    && Plans(tree, layout, clusters, items, plan) && ZonesApart(layout) && Apart(plan) && WellFormed(tree)
    && ConfigsParse(tree, layout, clusters, rewriter) && Relocated(Base(tree, plan, force), plan, after, rewriter)
  }

  lemma RunIsFinished(tree: Tree, layout: Layout, clusters: seq<string>, rewriter: Rewriter, items: seq<Item>,
                      plan: seq<Move>, shuffled: seq<Move>, force: bool)
    requires Plans(tree, layout, clusters, items, plan) && ZonesApart(layout) && WellFormed(tree)
    requires multiset(plan) == multiset(shuffled) && ValidateLayoutMovePlan(tree, plan, force)
    requires ApplyAll(tree, shuffled, force, rewriter).ok
    ensures Finished(tree, layout, clusters, rewriter, items, plan, force,
                     ApplyAll(tree, shuffled, force, rewriter).tree)
  {
    hide Plans, ZonesApart, WellFormed, ConfigsParse, SingleOwner, ApplyAll, Relocated, Base, Apart, Reachable;
    MigrationSucceedsExactlyWhen(tree, layout, clusters, rewriter, items, plan, shuffled, force);
    PlanApart(tree, layout, clusters, items, plan);
  }

  /** Every file at or below the source of a listed item is still there when its move is made. */
  lemma SourceInBase(tree: Tree, layout: Layout, items: seq<Item>, plan: seq<Move>, force: bool, item: Item)
    requires ZonesApart(layout) && plan == MovesOf(layout, items)
    ensures forall rest :: var p := MoveOf(layout, item).from + rest;
      p in tree ==> p in Base(tree, plan, force) && Base(tree, plan, force)[p] == tree[p]
  {
    hide ZonesApart, Unrelated, MoveOf, MovesOf, Cleared;
    forall b | b in plan ensures Unrelated(MoveOf(layout, item).from, b.to) {
      var x := ItemOf(layout, items, b);
      FromToApart(layout, item, x);
    }
    SourceUncleared(tree, plan, MoveOf(layout, item).from);
    BaseInside(tree, plan, force);
  }

  lemma CarriedTo(tree: Tree, layout: Layout, clusters: seq<string>, rewriter: Rewriter, items: seq<Item>,
                  plan: seq<Move>, force: bool, after: Tree, item: Item)
    requires Finished(tree, layout, clusters, rewriter, items, plan, force, after)
    requires !item.Config? && (Exists(tree, MoveOf(layout, item).from) ==> Listed(tree, layout, clusters, item))
    ensures Carried(tree, after, MoveOf(layout, item).from, MoveOf(layout, item).to)
  {
    hide ZonesApart, WellFormed, ConfigsParse, Relocated, Base, Apart, MoveOf, MovesOf, Listed;
    var m := MoveOf(layout, item);
    SourceInBase(tree, layout, items, plan, force, item);
    forall rest: Path | m.from + rest in tree
      ensures m.to + rest in after && after[m.to + rest] == tree[m.from + rest]
    {
      ItemCarried(tree, layout, clusters, rewriter, items, plan, Base(tree, plan, force), after, item, rest);
    }
  }

  lemma ExistsAsListed(tree: Tree, layout: Layout, clusters: seq<string>, item: Item)
    requires match item
      case GitOps(n) => n != "secrets" && !IsConfigName(n)
      case Ssh(c, n) => false
      case _ => item.cluster in clusters
    ensures Exists(tree, MoveOf(layout, item).from) ==> Listed(tree, layout, clusters, item)
  {
  }

  /** The age keys of every cluster are in its own secrets directory. */
  lemma KeysLand(tree: Tree, layout: Layout, clusters: seq<string>, rewriter: Rewriter, items: seq<Item>,
                 plan: seq<Move>, shuffled: seq<Move>, force: bool, c: string)
    requires Plans(tree, layout, clusters, items, plan) && ZonesApart(layout) && WellFormed(tree)
    requires multiset(plan) == multiset(shuffled) && ValidateLayoutMovePlan(tree, plan, force)
    requires ApplyAll(tree, shuffled, force, rewriter).ok && c in clusters
    ensures var after := ApplyAll(tree, shuffled, force, rewriter).tree;
      && Carried(tree, after, layout.legacy + ["secrets", "age", "keys", c + "-key.txt"],
                 layout.secrets + [c, "age", "keys", c + "-key.txt"])
      && Carried(tree, after, layout.legacy + ["secrets", "age", "keys", c + "-key.txt.pub"],
                 layout.secrets + [c, "age", "keys", c + "-key.txt.pub"])
  {
    var after := ApplyAll(tree, shuffled, force, rewriter).tree;
    hide Finished, Carried, Exists, ApplyAll, Plans, WellFormed, ZonesApart;
    RunIsFinished(tree, layout, clusters, rewriter, items, plan, shuffled, force);
    ExistsAsListed(tree, layout, clusters, Key(c));
    ExistsAsListed(tree, layout, clusters, PublicKey(c));
    CarriedTo(tree, layout, clusters, rewriter, items, plan, force, after, Key(c));
    CarriedTo(tree, layout, clusters, rewriter, items, plan, force, after, PublicKey(c));
  }

  /** A file of the SSH directory that carries the name of a cluster is in the secrets directory of that cluster. */
  lemma SshKeysLand(tree: Tree, layout: Layout, clusters: seq<string>, rewriter: Rewriter, items: seq<Item>,
                    plan: seq<Move>, shuffled: seq<Move>, force: bool, c: string, name: string)
    requires Plans(tree, layout, clusters, items, plan) && ZonesApart(layout) && WellFormed(tree)
    requires multiset(plan) == multiset(shuffled) && ValidateLayoutMovePlan(tree, plan, force)
    requires ApplyAll(tree, shuffled, force, rewriter).ok && c in clusters
    requires name == c || name == c + ".pub" || c + "-" <= name
    requires layout.legacy + ["secrets", "ssh", name] in tree
    ensures var after := ApplyAll(tree, shuffled, force, rewriter).tree;
      && layout.secrets + [c, "ssh", name] in after
      && after[layout.secrets + [c, "ssh", name]] == tree[layout.legacy + ["secrets", "ssh", name]]
  {
    var after := ApplyAll(tree, shuffled, force, rewriter).tree;
    hide Finished, Exists, ApplyAll, Plans, WellFormed, ZonesApart;
    RunIsFinished(tree, layout, clusters, rewriter, items, plan, shuffled, force);
    CarriedTo(tree, layout, clusters, rewriter, items, plan, force, after, Ssh(c, name));
    var from, to := layout.legacy + ["secrets", "ssh", name], layout.secrets + [c, "ssh", name];
    assert from + [] == from && to + [] == to;
  }

  /** The config of every cluster is in its state directory, rewritten. */
  lemma ConfigsLand(tree: Tree, layout: Layout, clusters: seq<string>, rewriter: Rewriter, items: seq<Item>,
                    plan: seq<Move>, shuffled: seq<Move>, force: bool, c: string)
    requires Plans(tree, layout, clusters, items, plan) && ZonesApart(layout) && WellFormed(tree)
    requires multiset(plan) == multiset(shuffled) && ValidateLayoutMovePlan(tree, plan, force)
    requires ApplyAll(tree, shuffled, force, rewriter).ok && c in clusters
    requires layout.legacy + ["." + c + "-config.yaml"] in tree
    ensures var after := ApplyAll(tree, shuffled, force, rewriter).tree;
      var from, to := layout.legacy + ["." + c + "-config.yaml"], layout.state + [c, c + "-config.yaml"];
      to in after && rewriter(from, tree[from]) == Some(after[to])
  {
    var after := ApplyAll(tree, shuffled, force, rewriter).tree;
    var from, to := layout.legacy + ["." + c + "-config.yaml"], layout.state + [c, c + "-config.yaml"];
    hide ApplyAll, WellFormed, ZonesApart, Relocated, MovesOf, Base, Apart;
    RunIsFinished(tree, layout, clusters, rewriter, items, plan, shuffled, force);
    assert from + [] == from && to + [] == to;
    assert from <= from;
    assert Listed(tree, layout, clusters, Config(c));
    SourceInBase(tree, layout, items, plan, force, Config(c));
    assert MoveOf(layout, Config(c)).from + [] in tree;
    ItemCarried(tree, layout, clusters, rewriter, items, plan, Base(tree, plan, force), after, Config(c), []);
    assert ConfigParses(tree, layout.legacy + SourceIn(Config(c)), rewriter);
  }

  /** Everything else at the top of the legacy directory is in the GitOps directory, under its name. */
  lemma GitOpsLands(tree: Tree, layout: Layout, clusters: seq<string>, rewriter: Rewriter, items: seq<Item>,
                    plan: seq<Move>, shuffled: seq<Move>, force: bool, name: string)
    requires Plans(tree, layout, clusters, items, plan) && ZonesApart(layout) && WellFormed(tree)
    requires multiset(plan) == multiset(shuffled) && ValidateLayoutMovePlan(tree, plan, force)
    requires ApplyAll(tree, shuffled, force, rewriter).ok
    requires name != "secrets" && forall c :: name != "." + c + "-config.yaml"
    ensures Carried(tree, ApplyAll(tree, shuffled, force, rewriter).tree, layout.legacy + [name],
                    layout.gitops + [name])
  {
    hide Finished, Carried, Exists, ApplyAll, Plans, WellFormed, ZonesApart;
    NoConfigName(name);
    RunIsFinished(tree, layout, clusters, rewriter, items, plan, shuffled, force);
    ExistsAsListed(tree, layout, clusters, GitOps(name));
    CarriedTo(tree, layout, clusters, rewriter, items, plan, force, ApplyAll(tree, shuffled, force, rewriter).tree,
              GitOps(name));
  }

  lemma NoConfigName(name: string)
    ensures IsConfigName(name) <==> exists c :: name == "." + c + "-config.yaml"
  {
    if IsConfigName(name) {
      assert name[0] == '.' && name[|name| - 12..][0] == '-';
      var c := name[1..|name| - 12];
      assert name[..1] == "." && name == name[..1] + c + name[|name| - 12..];
    }
    forall c | name == "." + c + "-config.yaml" ensures IsConfigName(name) {
      assert name[|name| - 12..] == "-config.yaml";
    }
  }

  // ---------------------------------------------------------------- and nothing else is in the private zones

  ghost predicate ConfigOf(tree: Tree, layout: Layout, rewriter: Rewriter, c: string, q: Path, text: string) {
    var from := layout.legacy + ["." + c + "-config.yaml"];
    q == layout.state + [c, c + "-config.yaml"] && from in tree && rewriter(from, tree[from]) == Some(text)
  }

  /** The file of the legacy secrets directory under this path is now the secret of this cluster. */
  ghost predicate SecretOf(tree: Tree, layout: Layout, c: string, name: Path, q: Path, text: string) {
    && (["age", "keys", c + "-key.txt"] <= name || ["age", "keys", c + "-key.txt.pub"] <= name
        || exists n :: name == ["ssh", n] && (n == c || n == c + ".pub" || c + "-" <= n))
    && q == layout.secrets + [c] + name
    && layout.legacy + ["secrets"] + name in tree && tree[layout.legacy + ["secrets"] + name] == text
  }

  lemma BelowConfig(tree: Tree, layout: Layout, clusters: seq<string>, rewriter: Rewriter, c: string, p: Path)
    requires WellFormed(tree) && ConfigsParse(tree, layout, clusters, rewriter) && c in clusters
    requires p in tree && layout.legacy + SourceIn(Config(c)) <= p
    ensures p == layout.legacy + SourceIn(Config(c)) && rewriter(p, tree[p]).Some?
  {
    hide SourceIn;
    assert ConfigParses(tree, layout.legacy + SourceIn(Config(c)), rewriter);
  }

  lemma BelowSsh(tree: Tree, layout: Layout, clusters: seq<string>, c: string, n: string, p: Path)
    requires WellFormed(tree) && Listed(tree, layout, clusters, Ssh(c, n))
    requires p in tree && layout.legacy + ["secrets", "ssh", n] <= p
    ensures p == layout.legacy + ["secrets", "ssh", n]
  {
  }

  /** What is new at or below the state or the secrets directory. */
  lemma NewPrivateFile(tree: Tree, layout: Layout, clusters: seq<string>, rewriter: Rewriter, items: seq<Item>,
                       plan: seq<Move>, force: bool, after: Tree, q: Path)
    requires Finished(tree, layout, clusters, rewriter, items, plan, force, after) && q in after
    requires layout.state <= q || layout.secrets <= q
    ensures || (q in tree && after[q] == tree[q])
            || (exists c :: c in clusters && ConfigOf(tree, layout, rewriter, c, q, after[q]))
            || (exists c, name :: c in clusters && SecretOf(tree, layout, c, name, q, after[q]))
  {
    hide Relocated, MovesOf, Apart, Exists, Unrelated, WellFormed, ConfigsParse, ZonesApart, IsConfigName, MoveOf, Base;
    var base := Base(tree, plan, force);
    BaseInside(tree, plan, force);
    var p, moved := Origin(base, layout, items, after, rewriter, q);
    if moved.Some? {
      var x := moved.value;
      var m := MoveOf(layout, x);
      assert Listed(tree, layout, clusters, x);
      LandsInZone(layout, x, p);
      NotInGitOps(layout, x, q);
      var rest := p[|m.from|..];
      assert p == m.from + rest && q == m.to + rest;
      InPlan(layout, items, x);
      if x.Config? {
        BelowConfig(tree, layout, clusters, rewriter, x.cluster, p);
        ItemCarried(tree, layout, clusters, rewriter, items, plan, base, after, x, rest);
        ConfigPaths(layout, x, rest);
        assert ConfigOf(tree, layout, rewriter, x.cluster, q, after[q]);
      } else {
        if x.Ssh? { BelowSsh(tree, layout, clusters, x.cluster, x.name, p); }
        var name := SecretPaths(layout, x, rest);
        assert SecretOf(tree, layout, x.cluster, name, q, after[q]);
      }
    }
  }

  lemma NotInGitOps(layout: Layout, x: Item, q: Path)
    requires ZonesApart(layout) && (layout.state <= q || layout.secrets <= q) && Zone(layout, x) <= q
    ensures !x.GitOps?
  {
    if x.GitOps? {
      if layout.state <= q { InOneZone(layout, layout.state, layout.gitops, q); }
      if layout.secrets <= q { InOneZone(layout, layout.secrets, layout.gitops, q); }
    }
  }

  lemma ConfigPaths(layout: Layout, x: Item, rest: Path)
    requires x.Config?
    ensures MoveOf(layout, x).from == layout.legacy + ["." + x.cluster + "-config.yaml"]
    ensures MoveOf(layout, x).to == layout.state + [x.cluster, x.cluster + "-config.yaml"]
    ensures MoveOf(layout, x).from + rest == MoveOf(layout, x).from ==> rest == []
  {
  }

  lemma SecretPaths(layout: Layout, x: Item, rest: Path) returns (name: Path)
    requires !x.GitOps? && !x.Config? && (x.Ssh? ==> rest == [] && Claims(x.cluster, x.name))
    ensures MoveOf(layout, x).from + rest == layout.legacy + ["secrets"] + name
    ensures MoveOf(layout, x).to + rest == layout.secrets + [x.cluster] + name
    ensures ["age", "keys", x.cluster + "-key.txt"] <= name || ["age", "keys", x.cluster + "-key.txt.pub"] <= name
      || exists n :: name == ["ssh", n] && (n == x.cluster || n == x.cluster + ".pub" || x.cluster + "-" <= n)
  {
    match x
    case Key(c) => name := ["age", "keys", c + "-key.txt"] + rest;
    case PublicKey(c) => name := ["age", "keys", c + "-key.txt.pub"] + rest;
    case Ssh(c, n) => name := ["ssh", n];
  }

  /** With private zones apart, a finished run has put nothing but rewritten configs into the state directory. */
  lemma OnlyConfigsInState(tree: Tree, layout: Layout, clusters: seq<string>, rewriter: Rewriter, items: seq<Item>,
                           plan: seq<Move>, shuffled: seq<Move>, force: bool, q: Path)
    requires Plans(tree, layout, clusters, items, plan) && ZonesApart(layout) && WellFormed(tree)
    requires multiset(plan) == multiset(shuffled) && ValidateLayoutMovePlan(tree, plan, force)
    requires ApplyAll(tree, shuffled, force, rewriter).ok && Unrelated(layout.state, layout.secrets)
    requires q in ApplyAll(tree, shuffled, force, rewriter).tree && layout.state <= q
    ensures var after := ApplyAll(tree, shuffled, force, rewriter).tree;
      || (q in tree && after[q] == tree[q])
      || exists c :: c in clusters && ConfigOf(tree, layout, rewriter, c, q, after[q])
  {
    var after := ApplyAll(tree, shuffled, force, rewriter).tree;
    hide Finished, ApplyAll, Plans, WellFormed, ZonesApart, ConfigOf;
    RunIsFinished(tree, layout, clusters, rewriter, items, plan, shuffled, force);
    NewPrivateFile(tree, layout, clusters, rewriter, items, plan, force, after, q);
    if layout.secrets <= q { InOneZone(layout, layout.state, layout.secrets, q); }
  }

  /** And nothing but the secrets of the clusters into the secrets directory. */
  lemma OnlySecretsInSecrets(tree: Tree, layout: Layout, clusters: seq<string>, rewriter: Rewriter, items: seq<Item>,
                             plan: seq<Move>, shuffled: seq<Move>, force: bool, q: Path)
    requires Plans(tree, layout, clusters, items, plan) && ZonesApart(layout) && WellFormed(tree)
    requires multiset(plan) == multiset(shuffled) && ValidateLayoutMovePlan(tree, plan, force)
    requires ApplyAll(tree, shuffled, force, rewriter).ok && Unrelated(layout.state, layout.secrets)
    requires q in ApplyAll(tree, shuffled, force, rewriter).tree && layout.secrets <= q
    ensures var after := ApplyAll(tree, shuffled, force, rewriter).tree;
      || (q in tree && after[q] == tree[q])
      || exists c, name :: c in clusters && SecretOf(tree, layout, c, name, q, after[q])
  {
    var after := ApplyAll(tree, shuffled, force, rewriter).tree;
    hide Finished, ApplyAll, Plans, WellFormed, ZonesApart, SecretOf;
    RunIsFinished(tree, layout, clusters, rewriter, items, plan, shuffled, force);
    NewPrivateFile(tree, layout, clusters, rewriter, items, plan, force, after, q);
    if layout.state <= q { InOneZone(layout, layout.state, layout.secrets, q); }
  }

  /** A plan is made only if no private directory or file of a cluster is at or inside the GitOps directory. */
  lemma PrivatePathsExactly(layout: Layout, c: string)
    ensures ValidPaths(layout, c) <==>
      forall p :: p in [layout.state + [c], layout.secrets + [c], layout.state + [c, c + "-config.yaml"],
                        layout.secrets + [c, "age", "keys", c + "-key.txt"], layout.secrets + [c, "ssh", c]] ==>
        !(layout.gitops <= p)
  {
    var all := [layout.state + [c], layout.secrets + [c], layout.state + [c, c + "-config.yaml"],
      layout.secrets + [c, "age", "keys", c + "-key.txt"], layout.secrets + [c, "ssh", c]];
    assert all[0] in all && all[1] in all && all[2] in all && all[3] in all && all[4] in all;
  }

  // ---------------------------------------------------------------- what is migrated, and one move

  lemma AboveTheRepository(tree: Tree, legacy: Path, rest: Path)
    requires WellFormed(tree) && Exists(tree, legacy + [".git"]) && rest != [] && rest[0] != ".git"
    ensures !HasParents(tree, legacy + rest) <==> exists k :: 0 < k < |rest| && legacy + rest[..k] in tree
  {
    hide Exists;
    if !HasParents(tree, legacy + rest) {
      var p :| p in tree && p < legacy + rest;
      NotAtOrAbove(tree, legacy, p);
      BelowLegacy(legacy, rest, p);
      var k := |p| - |legacy|;
    }
    if k :| 0 < k < |rest| && legacy + rest[..k] in tree {
      assert legacy + rest[..k] < legacy + rest;
    }
  }

  lemma BelowLegacy(legacy: Path, rest: Path, p: Path)
    requires p <= legacy + rest && !(p <= legacy)
    ensures |legacy| < |p| && p == legacy + rest[..|p| - |legacy|]
  {
    PrefixesOfOne(p, legacy, legacy + rest);
    assert p == (legacy + rest)[..|p|];
  }

  lemma NotAtOrAbove(tree: Tree, legacy: Path, p: Path)
    requires WellFormed(tree) && Exists(tree, legacy + [".git"]) && p in tree
    ensures !(p <= legacy)
  {
    var q :| q in tree && legacy + [".git"] <= q;
    assert legacy < legacy + [".git"] <= q;
  }

  /**
   * A legacy layout is a Git repository with a secrets directory in it or, if its infrastructure entry is no file, a
   * clusters directory or the config of a cluster.
   */
  lemma LegacyLayoutExactly(tree: Tree, legacy: Path)
    requires WellFormed(tree)
    ensures IsLegacyLayout(tree, legacy) <==>
      && Exists(tree, legacy + [".git"])
      && (|| Exists(tree, legacy + ["secrets"])
          || (legacy + ["infrastructure"] !in tree
              && (Exists(tree, legacy + ["infrastructure", "clusters"])
                  || exists c :: Exists(tree, legacy + ["." + c + "-config.yaml"]))))
  {
    hide Exists, HasParents, IsConfigName;
    if Exists(tree, legacy + [".git"]) {
      AboveTheRepository(tree, legacy, ["secrets"]);
      AboveTheRepository(tree, legacy, ["infrastructure", "clusters"]);
      OnlyOneAbove(tree, legacy);
      ConfigsAre(tree, legacy);
    }
  }

  lemma OnlyOneAbove(tree: Tree, legacy: Path)
    ensures (exists k :: 0 < k < 2 && legacy + ["infrastructure", "clusters"][..k] in tree) <==>
      legacy + ["infrastructure"] in tree
    ensures legacy + ["infrastructure"] in tree && WellFormed(tree) ==>
      !Exists(tree, legacy + ["infrastructure", "clusters"])
  {
    assert ["infrastructure", "clusters"][..1] == ["infrastructure"];
    if p :| p in tree && legacy + ["infrastructure", "clusters"] <= p {
      assert legacy + ["infrastructure"] < legacy + ["infrastructure", "clusters"];
    }
  }

  lemma ConfigsAre(tree: Tree, legacy: Path)
    ensures HasConfig(tree, legacy) <==> exists c :: Exists(tree, legacy + ["." + c + "-config.yaml"])
  {
    hide Exists, IsConfigName;
    if HasConfig(tree, legacy) {
      var name :| IsConfigName(name) && Exists(tree, legacy + [name]);
      NoConfigName(name);
      var c :| name == "." + c + "-config.yaml";
      assert Exists(tree, legacy + ["." + c + "-config.yaml"]);
    }
    if c :| Exists(tree, legacy + ["." + c + "-config.yaml"]) { NoConfigName("." + c + "-config.yaml"); }
  }

  /** A cluster has a name, and a config or something below its directory among the clusters. */
  lemma ClustersExactly(tree: Tree, legacy: Path, clusters: seq<string>, c: string)
    requires Discovers(tree, legacy, clusters)
    ensures c in clusters <==>
      c != ""
      && (Exists(tree, legacy + ["." + c + "-config.yaml"])
          || exists p :: p in tree && legacy + ["infrastructure", "clusters", c] < p)
  {
    hide Exists;
    assert legacy + INFRASTRUCTURE + [c] == legacy + ["infrastructure", "clusters", c];
  }

  /** The clusters of a legacy layout can be listed unless a file stands where their directory or its parent is. */
  lemma MigratableExactly(tree: Tree, legacy: Path)
    requires WellFormed(tree)
    ensures Migratable(tree, legacy) <==>
      IsLegacyLayout(tree, legacy)
      && legacy + ["infrastructure"] !in tree && legacy + ["infrastructure", "clusters"] !in tree
  {
    hide Exists, HasParents, HasConfig;
    if IsLegacyLayout(tree, legacy) {
      var dir := legacy + ["infrastructure", "clusters"];
      if NoDirectory(tree, legacy + INFRASTRUCTURE) {
        var p :| p in tree && p <= dir;
        NotAtOrAbove(tree, legacy, p);
        BelowLegacy(legacy, ["infrastructure", "clusters"], p);
        var k := |p| - |legacy|;
        assert k == 1 || k == 2;
        assert ["infrastructure", "clusters"][..1] == ["infrastructure"];
        assert ["infrastructure", "clusters"][..2] == ["infrastructure", "clusters"];
      }
      assert legacy + ["infrastructure"] <= dir;
    }
  }

  /** Nothing is at or below the path. */
  predicate Free(tree: Tree, path: Path) {
    forall p :: p in tree ==> !(path <= p)
  }

  /** When one move can be made without --force, and that it fails without a trace otherwise. */
  lemma OneMoveExactly(tree: Tree, m: Move, rewriter: Rewriter)
    ensures var after := ApplyMove(tree, m, false, rewriter);
      var room := forall p :: p in tree ==> !(p < m.to);
      && (!after.ok ==> after.tree == tree)
      && (after.ok <==>
            room &&
            if m.rewriteConfig then
              m.from in tree && rewriter(m.from, tree[m.from]).Some? && (Free(tree, m.to) || m.to in tree)
            else
              !Free(tree, m.from) && !(m.from < m.to) && (Free(tree, m.to) || (m.from in tree && m.to in tree)))
  {
  }
}
