/** When a migration plan runs to its end, and what it does to the files. */
module LayoutProofs {
  import opened Paths
  import opened Sequences
  import opened Text
  import opened LayoutMoves
  import opened LayoutPlan
  import opened LayoutForce

  /** Every file that some cluster claims has one claimant. */
  ghost predicate SingleOwner(tree: Tree, layout: Layout, clusters: seq<string>) {
    forall c, d, n ::
      c in clusters && d in clusters && Claims(c, n) && Claims(d, n)
      && layout.legacy + ["secrets", "ssh", n] in tree ==>
        c == d
  }

  /** The GitOps zone and the legacy directory are apart from all others; the private zones are apart, or one. */
  predicate ZonesApart(layout: Layout) {
    && Unrelated(layout.gitops, layout.state) && Unrelated(layout.gitops, layout.secrets)
    && (layout.state == layout.secrets || Unrelated(layout.state, layout.secrets))
    && Unrelated(layout.legacy, layout.gitops)
    && Unrelated(layout.legacy, layout.state) && Unrelated(layout.legacy, layout.secrets)
  }

  /** The directory of every destination can be made. */
  predicate Reachable(tree: Tree, plan: seq<Move>) {
    forall m :: m in plan ==> HasParents(tree, m.to)
  }

  /** No path is a file and a directory. */
  ghost predicate WellFormed(tree: Tree) {
    forall p, q :: p in tree && q in tree ==> !(p < q)
  }

  /** Every legacy config is a file that parses. */
  ghost predicate ConfigsParse(tree: Tree, layout: Layout, clusters: seq<string>, rewriter: Rewriter) {
    forall c :: c in clusters ==> ConfigParses(tree, layout.legacy + SourceIn(Config(c)), rewriter)
  }

  predicate ConfigParses(tree: Tree, from: Path, rewriter: Rewriter) {
    Exists(tree, from) ==> from in tree && rewriter(from, tree[from]).Some?
  }

  // ---------------------------------------------------------------- moves of distinct items

  lemma SameRoot(root: Path, p: Path, q: Path)
    ensures root + p <= root + q <==> p <= q
  {
    if root + p <= root + q {
      assert p == (root + p)[|root|..] && q == (root + q)[|root|..];
      assert (root + p) == (root + q)[..|root + p|];
    }
  }

  lemma UnrelatedTails(root: Path, p: Path, q: Path)
    requires Unrelated(p, q)
    ensures Unrelated(root + p, root + q)
  {
    SameRoot(root, p, q);
    SameRoot(root, q, p);
  }

  lemma UnrelatedZones(z: Path, y: Path, p: Path, q: Path)
    requires Unrelated(z, y)
    ensures Unrelated(z + p, y + q)
  {
    UnrelatedBelow(z, y, z + p);
    UnrelatedBelow(y, z + p, y + q);
  }

  lemma BeforeSuffix(c: string, d: string, suffix: string)
    requires c + suffix == d + suffix
    ensures c == d
  {
    assert c == (c + suffix)[..|c|] && d == (d + suffix)[..|d|];
  }

  lemma KeyNames(c: string, d: string)
    ensures c + "-key.txt" == d + "-key.txt" ==> c == d
    ensures c + "-key.txt.pub" == d + "-key.txt.pub" ==> c == d
    ensures c + "-key.txt" != d + "-key.txt.pub"
  {
    if c + "-key.txt" == d + "-key.txt" { BeforeSuffix(c, d, "-key.txt"); }
    if c + "-key.txt.pub" == d + "-key.txt.pub" { BeforeSuffix(c, d, "-key.txt.pub"); }
    var s, t := c + "-key.txt", d + "-key.txt.pub";
    assert s[|s| - 1] == 't' && t[|t| - 1] == 'b';
  }

  lemma ConfigNames(c: string, d: string)
    ensures "." + c + "-config.yaml" == "." + d + "-config.yaml" ==> c == d
    ensures IsConfigName("." + c + "-config.yaml")
  {
    if "." + c + "-config.yaml" == "." + d + "-config.yaml" {
      BeforeSuffix("." + c, "." + d, "-config.yaml");
      assert c == ("." + c)[1..] && d == ("." + d)[1..];
    }
    var n := "." + c + "-config.yaml";
    assert n[|n| - 12..] == "-config.yaml";
  }

  predicate Secret(item: Item) {
    item.Key? || item.PublicKey? || item.Ssh?
  }

  lemma SourcesApart(a: Item, b: Item)
    requires a != b && (a.Ssh? && b.Ssh? ==> a.name != b.name)
    requires forall x :: x in [a, b] && x.GitOps? ==> x.name != "secrets" && !IsConfigName(x.name)
    ensures Unrelated(SourceIn(a), SourceIn(b))
  {
    hide Unrelated, IsConfigName;
    assert a in [a, b] && b in [a, b];
    var p, q := SourceIn(a), SourceIn(b);
    if Secret(a) && Secret(b) {
      if a.Ssh? != b.Ssh? {
        DifferAt(p, q, 1);
      } else if a.Ssh? {
        DifferAt(p, q, 2);
      } else {
        KeyNames(a.cluster, b.cluster);
        KeyNames(b.cluster, a.cluster);
        DifferAt(p, q, 3);
      }
    } else {
      ConfigNames(if a.Config? then a.cluster else "", if b.Config? then b.cluster else "");
      ConfigNames(if b.Config? then b.cluster else "", if a.Config? then a.cluster else "");
      SecretsIsNoConfig(if a.Config? then a.cluster else "");
      SecretsIsNoConfig(if b.Config? then b.cluster else "");
      DifferAt(p, q, 0);
    }
  }

  lemma SecretsIsNoConfig(c: string)
    ensures "." + c + "-config.yaml" != "secrets"
  {
  }

  lemma ConfigIsNoDirectory(c: string)
    ensures c + "-config.yaml" != "age" && c + "-config.yaml" != "ssh"
  {
    assert |c + "-config.yaml"| >= 12;
  }

  lemma DestinationsApart(a: Item, b: Item)
    requires a != b && a.GitOps? == b.GitOps?
    ensures Unrelated(DestinationIn(a), DestinationIn(b))
  {
    hide Unrelated;
    var p, q := DestinationIn(a), DestinationIn(b);
    if a.GitOps? || a.cluster != b.cluster {
      DifferAt(p, q, 0);
    } else if a.Config? || b.Config? || a.Ssh? != b.Ssh? {
      ConfigIsNoDirectory(a.cluster);
      DifferAt(p, q, 1);
    } else if a.Ssh? {
      DifferAt(p, q, 2);
    } else {
      KeyNames(a.cluster, b.cluster);
      DifferAt(p, q, 3);
    }
  }

  // ---------------------------------------------------------------- a plan on the tree

  lemma ZoneFacts(layout: Layout, a: Item, b: Item)
    requires ZonesApart(layout)
    ensures Unrelated(layout.legacy, Zone(layout, a))
    ensures Zone(layout, a) != Zone(layout, b) ==> Unrelated(Zone(layout, a), Zone(layout, b))
    ensures Zone(layout, a) == Zone(layout, b) ==> a.GitOps? == b.GitOps?
  {
  }

  lemma ToApart(layout: Layout, a: Item, b: Item)
    requires ZonesApart(layout) && a != b
    ensures Unrelated(MoveOf(layout, a).to, MoveOf(layout, b).to)
  {
    hide Unrelated, ZonesApart, DestinationIn, Zone;
    ZoneFacts(layout, a, b);
    if Zone(layout, a) == Zone(layout, b) {
      DestinationsApart(a, b);
      UnrelatedTails(Zone(layout, a), DestinationIn(a), DestinationIn(b));
    } else {
      UnrelatedZones(Zone(layout, a), Zone(layout, b), DestinationIn(a), DestinationIn(b));
    }
  }

  lemma FromApart(tree: Tree, layout: Layout, clusters: seq<string>, a: Item, b: Item)
    requires Listed(tree, layout, clusters, a) && Listed(tree, layout, clusters, b) && a != b
    requires SingleOwner(tree, layout, clusters)
    ensures Unrelated(MoveOf(layout, a).from, MoveOf(layout, b).from)
  {
    hide Unrelated, Exists, IsConfigName, Claims;
    SourcesApart(a, b);
    UnrelatedTails(layout.legacy, SourceIn(a), SourceIn(b));
  }

  lemma FromToApart(layout: Layout, a: Item, b: Item)
    requires ZonesApart(layout)
    ensures Unrelated(MoveOf(layout, a).from, MoveOf(layout, b).to)
  {
    hide Unrelated, ZonesApart, DestinationIn, SourceIn, Zone;
    ZoneFacts(layout, b, b);
    UnrelatedZones(layout.legacy, Zone(layout, b), SourceIn(a), DestinationIn(b));
  }

  lemma SourcePresent(tree: Tree, layout: Layout, clusters: seq<string>, rewriter: Rewriter, a: Item)
    requires Listed(tree, layout, clusters, a) && WellFormed(tree) && ConfigsParse(tree, layout, clusters, rewriter)
    ensures var m := MoveOf(layout, a);
      && Exists(tree, m.from)
      && (m.rewriteConfig ==>
            m.from in tree && rewriter(m.from, tree[m.from]).Some? && forall p :: p in tree ==> !(m.from < p))
  {
  }

  lemma ItemOf(layout: Layout, items: seq<Item>, m: Move) returns (item: Item)
    requires m in MovesOf(layout, items)
    ensures item in items && m == MoveOf(layout, item)
  {
    hide MoveOf;
    var i :| 0 <= i < |items| && MovesOf(layout, items)[i] == m;
    item := items[i];
  }

  lemma InPlan(layout: Layout, items: seq<Item>, item: Item)
    requires item in items
    ensures MoveOf(layout, item) in MovesOf(layout, items)
    ensures MoveOf(layout, item).from == layout.legacy + SourceIn(item)
  {
  }

  lemma PlanApart(tree: Tree, layout: Layout, clusters: seq<string>, items: seq<Item>, plan: seq<Move>)
    requires Plans(tree, layout, clusters, items, plan) && ZonesApart(layout) && SingleOwner(tree, layout, clusters)
    ensures Apart(plan)
  {
    hide Unrelated, ZonesApart, SingleOwner, Listed, MoveOf;
    forall i, j | 0 <= i < j < |plan|
      ensures Unrelated(plan[i].from, plan[j].from) && Unrelated(plan[i].to, plan[j].to)
    {
      assert items[i] in items && items[j] in items;
      FromApart(tree, layout, clusters, items[i], items[j]);
      ToApart(layout, items[i], items[j]);
    }
  }

  /** Clearing the destinations leaves everything at and below a source. */
  lemma SourceUncleared(tree: Tree, plan: seq<Move>, from: Path)
    requires forall b :: b in plan ==> Unrelated(from, b.to)
    ensures forall p :: p in tree && from <= p ==> p in Cleared(tree, plan)
  {
    hide Unrelated;
    forall p | p in tree && from <= p ensures !Occupied(plan, p) {
      forall b | b in plan ensures !(b.to <= p) { NotBelowBoth(from, b.to, p); }
    }
  }

  lemma NotBelowBoth(p: Path, q: Path, r: Path)
    requires Unrelated(p, q) && p <= r
    ensures !(q <= r)
  {
    if q <= r { PrefixesOfOne(p, q, r); }
  }

  lemma ClearedIsApart(tree: Tree, plan: seq<Move>, m: Move)
    requires m in plan && HasParents(tree, m.to)
    ensures forall p :: p in Cleared(tree, plan) ==> Unrelated(p, m.to)
  {
  }

  lemma SourceStillPresent(tree: Tree, layout: Layout, clusters: seq<string>, rewriter: Rewriter,
                           plan: seq<Move>, a: Item)
    requires Listed(tree, layout, clusters, a) && WellFormed(tree) && ConfigsParse(tree, layout, clusters, rewriter)
    requires forall b :: b in plan ==> Unrelated(MoveOf(layout, a).from, b.to)
    ensures var m, base := MoveOf(layout, a), Cleared(tree, plan);
      && Exists(base, m.from)
      && (m.rewriteConfig ==>
            m.from in base && rewriter(m.from, base[m.from]).Some? && forall p :: p in base ==> !(m.from < p))
  {
    hide Listed, WellFormed, ConfigsParse, Unrelated, MoveOf, Occupied;
    SourcePresent(tree, layout, clusters, rewriter, a);
    SourceUncleared(tree, plan, MoveOf(layout, a).from);
  }

  /** Once its destinations are clear, nothing in the way of a plan is left. */
  lemma PlanCompatible(tree: Tree, layout: Layout, clusters: seq<string>, rewriter: Rewriter,
                       items: seq<Item>, plan: seq<Move>)
    requires Plans(tree, layout, clusters, items, plan) && ZonesApart(layout)
    requires WellFormed(tree) && ConfigsParse(tree, layout, clusters, rewriter) && SingleOwner(tree, layout, clusters)
    requires Reachable(tree, plan)
    ensures Compatible(Cleared(tree, plan), plan, rewriter)
  {
    hide Unrelated, ZonesApart, SingleOwner, Listed, MoveOf, WellFormed, ConfigsParse, Exists, MovesOf, Apart, Distinct,
         HasParents, Cleared;
    PlanApart(tree, layout, clusters, items, plan);
    forall a, b | a in plan && b in plan ensures Unrelated(a.from, b.to) {
      var x := ItemOf(layout, items, a);
      var y := ItemOf(layout, items, b);
      FromToApart(layout, x, y);
    }
    var base := Cleared(tree, plan);
    forall m | m in plan
      ensures Exists(base, m.from) && forall p :: p in base ==> Unrelated(p, m.to)
      ensures m.rewriteConfig ==>
        m.from in base && rewriter(m.from, base[m.from]).Some? && forall p :: p in base ==> !(m.from < p)
    {
      var x := ItemOf(layout, items, m);
      ClearedIsApart(tree, plan, m);
      SourceStillPresent(tree, layout, clusters, rewriter, plan, x);
    }
  }

  lemma TwiceClaimed(tree: Tree, layout: Layout, clusters: seq<string>, items: seq<Item>, plan: seq<Move>)
    returns (a: Item, b: Item)
    requires Plans(tree, layout, clusters, items, plan) && !SingleOwner(tree, layout, clusters)
    ensures a in items && b in items && a != b && a.Ssh? && b.Ssh? && a.name == b.name
  {
    var c, d, n :| c in clusters && d in clusters && Claims(c, n) && Claims(d, n)
      && layout.legacy + ["secrets", "ssh", n] in tree && c != d;
    a, b := Ssh(c, n), Ssh(d, n);
    assert Listed(tree, layout, clusters, a) && Listed(tree, layout, clusters, b);
  }

  lemma MemberOfShuffled(plan: seq<Move>, shuffled: seq<Move>, m: Move) returns (i: nat)
    requires m in plan && multiset(plan) == multiset(shuffled)
    ensures i < |shuffled| && shuffled[i] == m
  {
    SameElements(plan, shuffled);
    i :| 0 <= i < |shuffled| && shuffled[i] == m;
  }

  lemma SharedKeyFails(tree: Tree, layout: Layout, clusters: seq<string>, rewriter: Rewriter,
                       items: seq<Item>, plan: seq<Move>, shuffled: seq<Move>, force: bool)
    requires Plans(tree, layout, clusters, items, plan) && ZonesApart(layout)
    requires !SingleOwner(tree, layout, clusters) && multiset(plan) == multiset(shuffled)
    ensures !ApplyAll(tree, shuffled, force, rewriter).ok
  {
    hide ZonesApart, SingleOwner, Listed, ApplyAll, Unrelated, Distinct, MoveOf, MovesOf;
    var a, b := TwiceClaimed(tree, layout, clusters, items, plan);
    InPlan(layout, items, a);
    InPlan(layout, items, b);
    DifferentDestinations(layout, a, b);
    var i := MemberOfShuffled(plan, shuffled, MoveOf(layout, a));
    var j := MemberOfShuffled(plan, shuffled, MoveOf(layout, b));
    SameElements(plan, shuffled);
    forall x | x in shuffled ensures Unrelated(MoveOf(layout, a).from, x.to) {
      var y := ItemOf(layout, items, x);
      FromToApart(layout, a, y);
    }
    RepeatedSourceFails(tree, shuffled, force, rewriter, if i < j then i else j, if i < j then j else i);
  }

  lemma DifferentDestinations(layout: Layout, a: Item, b: Item)
    requires a.Ssh? && b.Ssh? && a.name == b.name && a != b
    ensures MoveOf(layout, a) != MoveOf(layout, b) && MoveOf(layout, a).from == MoveOf(layout, b).from
    ensures !MoveOf(layout, a).rewriteConfig && !MoveOf(layout, b).rewriteConfig
  {
    assert MoveOf(layout, a).to[|layout.secrets|] == a.cluster;
    assert MoveOf(layout, b).to[|layout.secrets|] == b.cluster;
  }

  lemma BlockedFails(tree: Tree, layout: Layout, clusters: seq<string>, rewriter: Rewriter,
                     items: seq<Item>, plan: seq<Move>, shuffled: seq<Move>, force: bool)
    requires Plans(tree, layout, clusters, items, plan) && ZonesApart(layout)
    requires !Reachable(tree, plan) && multiset(plan) == multiset(shuffled)
    ensures !ApplyAll(tree, shuffled, force, rewriter).ok
  {
    hide ZonesApart, Listed, ApplyAll, Unrelated, Distinct, MoveOf, MovesOf;
    var m :| m in plan && !HasParents(tree, m.to);
    var p :| p in tree && p < m.to;
    var i := MemberOfShuffled(plan, shuffled, m);
    var x := ItemOf(layout, items, m);
    forall b | b in shuffled ensures Unrelated(b.from, m.to) && (b.to == m.to || Unrelated(b.to, m.to)) {
      SameElements(plan, shuffled);
      var y := ItemOf(layout, items, b);
      FromToApart(layout, y, x);
      if x != y { ToApart(layout, y, x); }
    }
    BlockedMoveFails(tree, shuffled, force, rewriter, i, p);
  }

  lemma UnparsedFails(tree: Tree, layout: Layout, clusters: seq<string>, rewriter: Rewriter,
                      items: seq<Item>, plan: seq<Move>, shuffled: seq<Move>, force: bool)
    requires Plans(tree, layout, clusters, items, plan) && ZonesApart(layout)
    requires !ConfigsParse(tree, layout, clusters, rewriter) && multiset(plan) == multiset(shuffled)
    ensures !ApplyAll(tree, shuffled, force, rewriter).ok
  {
    hide ZonesApart, ApplyAll, Unrelated, Distinct, Exists, SourceIn;
    var c :| c in clusters && !ConfigParses(tree, layout.legacy + SourceIn(Config(c)), rewriter);
    assert Listed(tree, layout, clusters, Config(c));
    var k :| 0 <= k < |items| && items[k] == Config(c);
    var i := MemberOfShuffled(plan, shuffled, plan[k]);
    forall b | b in shuffled ensures Unrelated(plan[k].from, b.to) {
      SameElements(plan, shuffled);
      var y := ItemOf(layout, items, b);
      FromToApart(layout, Config(c), y);
    }
    UnreadableConfigFails(tree, shuffled, force, rewriter, i);
  }

  lemma NothingToClear(tree: Tree, plan: seq<Move>)
    requires forall m :: m in plan ==> !Exists(tree, m.to)
    ensures Cleared(tree, plan) == tree
  {
  }

  lemma ClearedShuffled(tree: Tree, plan: seq<Move>, shuffled: seq<Move>)
    requires multiset(plan) == multiset(shuffled)
    ensures Cleared(tree, shuffled) == Cleared(tree, plan)
  {
    SameElements(plan, shuffled);
    forall p ensures Occupied(plan, p) <==> Occupied(shuffled, p) {}
  }

  /** Any order of a plan, forced or not, does what the plan does once its destinations are clear. */
  lemma RunsLikeCleared(tree: Tree, plan: seq<Move>, shuffled: seq<Move>, force: bool, rewriter: Rewriter)
    requires Compatible(Cleared(tree, plan), plan, rewriter) && multiset(plan) == multiset(shuffled)
    requires force || Cleared(tree, plan) == tree
    ensures var after := ApplyAll(tree, shuffled, force, rewriter);
      && after.ok && after == ApplyAll(Cleared(tree, plan), plan, force, rewriter)
      && Relocated(Cleared(tree, plan), plan, after.tree, rewriter)
  {
    hide Compatible, Relocated, ApplyAll, Cleared;
    var base := Cleared(tree, plan);
    AnyOrder(base, plan, shuffled, force, rewriter);
    MovesRelocate(base, plan, force, rewriter);
    if force {
      ClearedShuffled(tree, plan, shuffled);
      ShuffledCompatible(base, plan, shuffled, rewriter);
      ForceReplacesDestinations(tree, shuffled, rewriter);
    }
  }

  /** What a run starts from: with --force, the tree without what was at the destinations. */
  function Base(tree: Tree, plan: seq<Move>, force: bool): Tree {
    if force then Cleared(tree, plan) else tree
  }

  /**
   * A plan that passes validateLayoutMovePlan runs to its end, in whatever order, exactly when no SSH
   * key file has two claimants, no file stands where a directory is needed and every config parses.
   * Then the order does not matter, and every file is where its move says, once.
   */
  lemma MigrationSucceedsExactlyWhen(tree: Tree, layout: Layout, clusters: seq<string>, rewriter: Rewriter,
                                     items: seq<Item>, plan: seq<Move>, shuffled: seq<Move>, force: bool)
    requires Plans(tree, layout, clusters, items, plan) && ZonesApart(layout)
    requires WellFormed(tree) && multiset(plan) == multiset(shuffled)
    requires ValidateLayoutMovePlan(tree, plan, force)
    ensures var after, base := ApplyAll(tree, shuffled, force, rewriter), Base(tree, plan, force);
      && (after.ok <==>
            SingleOwner(tree, layout, clusters) && Reachable(tree, plan)
              && ConfigsParse(tree, layout, clusters, rewriter))
      && (after.ok ==> after == ApplyAll(tree, plan, force, rewriter))
      && (after.ok ==> Relocated(base, plan, after.tree, rewriter) && |after.tree| == |base|)
  {
    hide Plans, ZonesApart, WellFormed, ConfigsParse, SingleOwner, ApplyAll, Relocated, Compatible, Reachable, Exists,
         Cleared;
    if !SingleOwner(tree, layout, clusters) {
      SharedKeyFails(tree, layout, clusters, rewriter, items, plan, shuffled, force);
    } else if !Reachable(tree, plan) {
      BlockedFails(tree, layout, clusters, rewriter, items, plan, shuffled, force);
    } else if !ConfigsParse(tree, layout, clusters, rewriter) {
      UnparsedFails(tree, layout, clusters, rewriter, items, plan, shuffled, force);
    } else {
      PlanCompatible(tree, layout, clusters, rewriter, items, plan);
      if !force { NothingToClear(tree, plan); }
      RunsLikeCleared(tree, plan, shuffled, force, rewriter);
      RunsLikeCleared(tree, plan, plan, force, rewriter);
      RelocatedKeepsSize(Base(tree, plan, force), plan, ApplyAll(tree, plan, force, rewriter).tree, rewriter);
    }
  }

  // ---------------------------------------------------------------- what ends up where

  /** Where a file of the finished migration came from: unmoved, or the source of one item. */
  lemma Origin(tree: Tree, layout: Layout, items: seq<Item>, after: Tree, rewriter: Rewriter, q: Path)
    returns (p: Path, moved: Option<Item>)
    requires Relocated(tree, MovesOf(layout, items), after, rewriter) && q in after
    ensures p in tree && (moved.None? ==> p == q && after[q] == tree[p])
    ensures moved.None? ==> forall m :: m in MovesOf(layout, items) ==> !(m.from <= q)
    ensures moved.Some? ==> moved.value in items && var m := MoveOf(layout, moved.value);
      m.from <= p && q == Below(m.from, m.to, p) && (!moved.value.Config? ==> after[q] == tree[p])
  {
    hide MoveOf, MovesOf, Mover;
    var plan := MovesOf(layout, items);
    p :| p in tree && Target(plan, p) == q;
    MoverTakes(plan, p);
    moved := None;
    if Mover(plan, p).Some? {
      var x := ItemOf(layout, items, Mover(plan, p).value);
      moved := Some(x);
      ConfigRewrites(layout, x);
    }
  }

  lemma ConfigRewrites(layout: Layout, item: Item)
    ensures MoveOf(layout, item).rewriteConfig == item.Config?
  {
  }

  lemma LandsInZone(layout: Layout, item: Item, p: Path)
    requires MoveOf(layout, item).from <= p
    ensures Zone(layout, item) <= Below(MoveOf(layout, item).from, MoveOf(layout, item).to, p)
  {
  }

  lemma GitOpsOrigin(tree: Tree, layout: Layout, clusters: seq<string>, rewriter: Rewriter,
                     items: seq<Item>, plan: seq<Move>, base: Tree, after: Tree, q: Path)
    returns (p: Path)
    requires Plans(tree, layout, clusters, items, plan) && ZonesApart(layout)
    requires Relocated(base, plan, after, rewriter) && q in after && layout.gitops <= q
    ensures p in base && after[q] == base[p]
    ensures p == q || (layout.legacy < p && p[|layout.legacy|] != "secrets" && !IsConfigName(p[|layout.legacy|])
                       && q == layout.gitops + p[|layout.legacy|..])
  {
    hide Relocated, Unrelated, IsConfigName, Exists, MovesOf, Distinct;
    var moved: Option<Item>;
    p, moved := Origin(base, layout, items, after, rewriter, q);
    if moved.Some? {
      var x := moved.value;
      LandsInZone(layout, x, p);
      InOneZone(layout, layout.gitops, Zone(layout, x), q);
      OnlyGitOpsThere(layout, x);
      GitOpsKeepsPath(layout, x, p);
      assert Listed(tree, layout, clusters, x);
    }
  }

  lemma InOneZone(layout: Layout, z: Path, y: Path, q: Path)
    requires z <= q && y <= q
    ensures !Unrelated(z, y)
  {
  }

  lemma OnlyGitOpsThere(layout: Layout, x: Item)
    requires ZonesApart(layout) && !Unrelated(layout.gitops, Zone(layout, x))
    ensures x.GitOps?
  {
  }

  lemma GitOpsKeepsPath(layout: Layout, x: Item, p: Path)
    requires x.GitOps? && MoveOf(layout, x).from <= p
    ensures var m := MoveOf(layout, x);
      && layout.legacy < p && p[|layout.legacy|] == x.name
      && Below(m.from, m.to, p) == layout.gitops + p[|layout.legacy|..]
  {
  }

  /**
   * A finished migration has put nothing of the secrets directory and no cluster config into the
   * GitOps zone: what is new there kept its path and text from elsewhere in the legacy directory.
   */
  lemma NoSecretsInGitOps(tree: Tree, layout: Layout, clusters: seq<string>, rewriter: Rewriter,
                          items: seq<Item>, plan: seq<Move>, force: bool, after: Tree, q: Path)
    requires Plans(tree, layout, clusters, items, plan) && ZonesApart(layout)
    requires Relocated(Base(tree, plan, force), plan, after, rewriter) && q in after && layout.gitops <= q
    ensures (q in tree && after[q] == tree[q]) || (|layout.gitops| < |q| && var rest := q[|layout.gitops|..];
      && rest[0] != "secrets" && !IsConfigName(rest[0])
      && layout.legacy + rest in tree && after[q] == tree[layout.legacy + rest])
  {
    hide Plans, ZonesApart, Relocated, IsConfigName, Base;
    var base := Base(tree, plan, force);
    BaseInside(tree, plan, force);
    var p := GitOpsOrigin(tree, layout, clusters, rewriter, items, plan, base, after, q);
    if p != q {
      var k := |layout.legacy|;
      assert q[|layout.gitops|..] == p[k..] && p == p[..k] + p[k..] && p[..k] == layout.legacy;
    }
  }

  lemma BaseInside(tree: Tree, plan: seq<Move>, force: bool)
    ensures var base := Base(tree, plan, force); forall p :: p in base ==> p in tree && base[p] == tree[p]
  {
  }

  /**
   * A finished migration leaves no source of the plan; what is still in the legacy directory is
   * unclaimed: under secrets, or the config of a cluster that was not listed.
   */
  lemma WhatStaysBehind(tree: Tree, layout: Layout, clusters: seq<string>, rewriter: Rewriter,
                        items: seq<Item>, plan: seq<Move>, force: bool, after: Tree, q: Path)
    requires Plans(tree, layout, clusters, items, plan) && ZonesApart(layout)
    requires Relocated(Base(tree, plan, force), plan, after, rewriter) && q in after && layout.legacy < q
    ensures q in tree && after[q] == tree[q]
    ensures q[|layout.legacy|] == "secrets" || IsConfigName(q[|layout.legacy|])
    ensures forall item :: Listed(tree, layout, clusters, item) ==> !(layout.legacy + SourceIn(item) <= q)
  {
    hide Base, Relocated, Unrelated, IsConfigName, MovesOf, Distinct, Listed, Exists, ZonesApart;
    BaseInside(tree, plan, force);
    var p, moved := Origin(Base(tree, plan, force), layout, items, after, rewriter, q);
    if moved.Some? {
      LandsInZone(layout, moved.value, p);
      InOneZone(layout, layout.legacy, Zone(layout, moved.value), q);
      ZoneFacts(layout, moved.value, moved.value);
    }
    forall item | Listed(tree, layout, clusters, item) ensures !(layout.legacy + SourceIn(item) <= q) {
      InPlan(layout, items, item);
    }
    EntryListed(tree, layout, clusters, q);
  }

  lemma EntryListed(tree: Tree, layout: Layout, clusters: seq<string>, q: Path)
    requires q in tree && layout.legacy < q
    ensures var n := q[|layout.legacy|];
      && layout.legacy + SourceIn(GitOps(n)) <= q
      && (n == "secrets" || IsConfigName(n) || Listed(tree, layout, clusters, GitOps(n)))
  {
  }

  /** Why the private zones must not be nested: a key and a config could need one name as file and directory. */
  lemma NestedZonesCollide(layout: Layout, c: string, n: string)
    requires layout.state == layout.secrets + [c, "ssh"]
    ensures MoveOf(layout, Ssh(c, n)).to < MoveOf(layout, Config(n)).to
  {
    assert MoveOf(layout, Config(n)).to == MoveOf(layout, Ssh(c, n)).to + [n + "-config.yaml"];
  }

  // ---------------------------------------------------------------- which names clash

  /** Two clusters claim one file only if one name starts with the other. */
  lemma ClaimantsArePrefixes(c: string, d: string, n: string)
    requires Claims(c, n) && Claims(d, n)
    ensures c <= d || d <= c
  {
    assert c <= n && d <= n by {
      assert c <= c + ".pub" && c <= c + "-" && d <= d + ".pub" && d <= d + "-";
    }
    assert c == n[..|c|] && d == n[..|d|];
  }

  /** So the key of a cluster such as prod-eu beside prod is claimed twice. */
  lemma DashedNamesClash(tree: Tree, layout: Layout, clusters: seq<string>, c: string, suffix: string)
    requires c in clusters && c + "-" + suffix in clusters
    requires layout.legacy + ["secrets", "ssh", c + "-" + suffix] in tree
    ensures !SingleOwner(tree, layout, clusters)
  {
  }
}
