/** What a migration leaves behind when a move fails half way. */
module LayoutStops {
  import opened Paths
  import opened Sequences
  import opened LayoutMoves
  import opened LayoutPlan
  import opened LayoutForce
  import opened LayoutProofs
  import opened LayoutDiscovery

  /** How many moves are made before the first that fails. */
  function Made(tree: Tree, moves: seq<Move>, force: bool, rewriter: Rewriter): (k: nat)
    ensures k <= |moves|
    decreases |moves|
  {
    if moves == [] then 0
    else
      var first := ApplyMove(tree, moves[0], force, rewriter);
      if first.ok then 1 + Made(first.tree, moves[1..], force, rewriter) else 0
  }

  /** A run is the moves that are made, and then the one that fails. */
  lemma {:induction false} MadeThenFails(tree: Tree, moves: seq<Move>, force: bool, rewriter: Rewriter)
    ensures var k := Made(tree, moves, force, rewriter); var made := ApplyAll(tree, moves[..k], force, rewriter);
      && made.ok
      && (if k == |moves| then ApplyAll(tree, moves, force, rewriter) == made
          else var last := ApplyMove(made.tree, moves[k], force, rewriter);
            !last.ok && ApplyAll(tree, moves, force, rewriter) == last)
    decreases |moves|
  {
    hide ApplyMove;
    if moves != [] {
      var first := ApplyMove(tree, moves[0], force, rewriter);
      if first.ok {
        var k := Made(first.tree, moves[1..], force, rewriter);
        assert moves[..k + 1][1..] == moves[1..][..k];
        MadeThenFails(first.tree, moves[1..], force, rewriter);
      }
    }
  }

  /** A move that fails changes nothing, or has cleared its destination for --force. */
  lemma FailedMove(tree: Tree, m: Move, force: bool, rewriter: Rewriter)
    requires !ApplyMove(tree, m, force, rewriter).ok
    ensures var after := ApplyMove(tree, m, force, rewriter).tree;
      after == tree || (force && after == RemoveAll(tree, m.to))
  {
  }

  // ---------------------------------------------------------------- moves that were made did not disturb each other

  lemma TwoItems(layout: Layout, items: seq<Item>, shuffled: seq<Move>, i: nat, j: nat) returns (a: Item, b: Item)
    requires Distinct(items) && multiset(MovesOf(layout, items)) == multiset(shuffled) && i < j < |shuffled|
    ensures a in items && b in items && a != b
    ensures shuffled[i] == MoveOf(layout, a) && shuffled[j] == MoveOf(layout, b)
  {
    hide MoveOf;
    var plan := MovesOf(layout, items);
    SameElements(plan, shuffled);
    if shuffled[i] == shuffled[j] {
      RepeatCountsTwice(shuffled, i, j);
      TwiceMeansTwoPlaces(plan, shuffled[i]);
      var x, y :| 0 <= x < y < |plan| && plan[x] == plan[y] == shuffled[i];
      a, b := items[x], items[y];
    } else {
      a := ItemOf(layout, items, shuffled[i]);
      b := ItemOf(layout, items, shuffled[j]);
    }
  }

  lemma MadeFromApart(tree: Tree, layout: Layout, clusters: seq<string>, rewriter: Rewriter,
                      items: seq<Item>, shuffled: seq<Move>, k: nat, force: bool, i: nat, j: nat)
    requires Plans(tree, layout, clusters, items, MovesOf(layout, items)) && ZonesApart(layout)
    requires multiset(MovesOf(layout, items)) == multiset(shuffled) && k <= |shuffled|
    requires ApplyAll(tree, shuffled[..k], force, rewriter).ok && i < j < k
    ensures Unrelated(shuffled[i].from, shuffled[j].from) && Unrelated(shuffled[i].to, shuffled[j].to)
  {
    hide Unrelated, ZonesApart, Listed, MoveOf, MovesOf, Distinct, ApplyAll;
    var a, b := TwoItems(layout, items, shuffled, i, j);
    ToApart(layout, a, b);
    if a.Ssh? && b.Ssh? && a.name == b.name {
      DifferentDestinations(layout, a, b);
      forall x | 0 <= x < k ensures Unrelated(shuffled[j].from, shuffled[x].to) {
        MadeFromTo(layout, items, shuffled, j, x);
      }
      RepeatedSourceFails(tree, shuffled[..k], force, rewriter, i, j);
    } else {
      TwoSources(tree, layout, clusters, a, b);
    }
  }

  lemma TwoSources(tree: Tree, layout: Layout, clusters: seq<string>, a: Item, b: Item)
    requires Listed(tree, layout, clusters, a) && Listed(tree, layout, clusters, b) && a != b
    requires !(a.Ssh? && b.Ssh? && a.name == b.name)
    ensures Unrelated(MoveOf(layout, a).from, MoveOf(layout, b).from)
  {
    hide Unrelated, Exists, IsConfigName, Claims;
    SourcesApart(a, b);
    UnrelatedTails(layout.legacy, SourceIn(a), SourceIn(b));
  }

  lemma MadeFromTo(layout: Layout, items: seq<Item>, shuffled: seq<Move>, i: nat, j: nat)
    requires ZonesApart(layout) && multiset(MovesOf(layout, items)) == multiset(shuffled)
    requires i < |shuffled| && j < |shuffled|
    ensures Unrelated(shuffled[i].from, shuffled[j].to)
  {
    hide Unrelated, ZonesApart, MoveOf, MovesOf;
    SameElements(MovesOf(layout, items), shuffled);
    var a := ItemOf(layout, items, shuffled[i]);
    var b := ItemOf(layout, items, shuffled[j]);
    FromToApart(layout, a, b);
  }

  /** A move that was made had room for its directory and, for a config, a text that parses. */
  lemma MadeWasReady(tree: Tree, moves: seq<Move>, force: bool, rewriter: Rewriter, i: nat)
    requires ApplyAll(tree, moves, force, rewriter).ok && i < |moves|
    requires forall b :: b in moves ==>
      Unrelated(b.from, moves[i].to) && Unrelated(moves[i].from, b.to)
      && (b.to == moves[i].to || Unrelated(b.to, moves[i].to))
    ensures HasParents(tree, moves[i].to)
    ensures moves[i].rewriteConfig ==>
      moves[i].from in tree && rewriter(moves[i].from, tree[moves[i].from]).Some?
  {
    hide ApplyAll, Unrelated;
    var m := moves[i];
    forall p | p in tree && p < m.to ensures false {
      BlockedMoveFails(tree, moves, force, rewriter, i, p);
    }
    if m.rewriteConfig && (m.from in tree ==> rewriter(m.from, tree[m.from]).None?) {
      UnreadableConfigFails(tree, moves, force, rewriter, i);
    }
  }

  lemma MadeCompatible(tree: Tree, layout: Layout, clusters: seq<string>, rewriter: Rewriter,
                       items: seq<Item>, plan: seq<Move>, shuffled: seq<Move>, k: nat, force: bool)
    requires Plans(tree, layout, clusters, items, plan) && ZonesApart(layout) && WellFormed(tree)
    requires multiset(plan) == multiset(shuffled) && k <= |shuffled|
    requires ValidateLayoutMovePlan(tree, plan, force) && ApplyAll(tree, shuffled[..k], force, rewriter).ok
    ensures Compatible(Cleared(tree, shuffled[..k]), shuffled[..k], rewriter)
  {
    hide Unrelated, ZonesApart, Listed, MoveOf, MovesOf, Distinct, ApplyAll, Exists, HasParents, Cleared, WellFormed;
    var moves := shuffled[..k];
    var base := Cleared(tree, moves);
    forall i, j | 0 <= i < j < k
      ensures Unrelated(moves[i].from, moves[j].from) && Unrelated(moves[i].to, moves[j].to)
    {
      MadeFromApart(tree, layout, clusters, rewriter, items, shuffled, k, force, i, j);
    }
    forall a, b | a in moves && b in moves ensures Unrelated(a.from, b.to) {
      var i :| 0 <= i < k && shuffled[i] == a;
      var j :| 0 <= j < k && shuffled[j] == b;
      MadeFromTo(layout, items, shuffled, i, j);
    }
    forall m | m in moves
      ensures Exists(base, m.from) && forall p :: p in base ==> Unrelated(p, m.to)
      ensures m.rewriteConfig ==>
        m.from in base && rewriter(m.from, base[m.from]).Some? && forall p :: p in base ==> !(m.from < p)
    {
      var i :| 0 <= i < k && moves[i] == m;
      OthersElsewhere(moves, m);
      MadeWasReady(tree, moves, force, rewriter, i);
      ClearedIsApart(tree, moves, m);
      SameElements(plan, shuffled);
      SourceKept(tree, moves, m);
    }
  }

  lemma OthersElsewhere(moves: seq<Move>, m: Move)
    requires Apart(moves) && m in moves
    ensures forall b :: b in moves ==> b.to == m.to || Unrelated(b.to, m.to)
  {
    forall b | b in moves ensures b.to == m.to || Unrelated(b.to, m.to) {
      if b != m { ApartMembers(moves, b, m); }
    }
  }

  lemma SourceKept(tree: Tree, moves: seq<Move>, m: Move)
    requires WellFormed(tree) && Exists(tree, m.from) && forall b :: b in moves ==> Unrelated(m.from, b.to)
    ensures var base := Cleared(tree, moves);
      && Exists(base, m.from)
      && (m.from in tree ==> m.from in base && base[m.from] == tree[m.from] && forall p :: p in base ==> !(m.from < p))
  {
    hide Unrelated, Occupied;
    SourceUncleared(tree, moves, m.from);
  }

  // ---------------------------------------------------------------- the tree that is left

  /** Clearing a path that no move touches, before or after the moves. */
  lemma RemovedElsewhere(before: Tree, moves: seq<Move>, after: Tree, rewriter: Rewriter, path: Path)
    requires Relocated(before, moves, after, rewriter)
    requires forall b :: b in moves ==> Unrelated(b.from, path) && Unrelated(b.to, path)
    ensures Relocated(RemoveAll(before, path), moves, RemoveAll(after, path), rewriter)
  {
    forall p ensures path <= Target(moves, p) <==> path <= p { TargetElsewhere(moves, p, path); }
    hide Target, NewText;
  }

  lemma TargetElsewhere(moves: seq<Move>, p: Path, path: Path)
    requires forall b :: b in moves ==> Unrelated(b.from, path) && Unrelated(b.to, path)
    ensures path <= Target(moves, p) <==> path <= p
  {
    hide Unrelated, Mover;
    MoverTakes(moves, p);
    var m := Mover(moves, p);
    if m.Some? {
      if path <= p { NotBelowBoth(m.value.from, path, p); }
      if path <= Target(moves, p) { NotBelowBoth(m.value.to, path, Target(moves, p)); }
    }
  }

  lemma ClearedOneMore(tree: Tree, moves: seq<Move>, k: nat)
    requires k < |moves|
    ensures Cleared(tree, moves[..k + 1]) == RemoveAll(Cleared(tree, moves[..k]), moves[k].to)
  {
    assert moves[..k + 1] == moves[..k] + [moves[k]];
    forall p ensures Occupied(moves[..k + 1], p) <==> Occupied(moves[..k], p) || moves[k].to <= p {}
  }

  lemma LastElsewhere(layout: Layout, items: seq<Item>, shuffled: seq<Move>, k: nat)
    requires ZonesApart(layout) && Distinct(items)
    requires multiset(MovesOf(layout, items)) == multiset(shuffled) && k < |shuffled|
    ensures forall b :: b in shuffled[..k] ==> Unrelated(b.from, shuffled[k].to) && Unrelated(b.to, shuffled[k].to)
  {
    hide Unrelated, ZonesApart, MoveOf, MovesOf, Distinct;
    forall b | b in shuffled[..k] ensures Unrelated(b.from, shuffled[k].to) && Unrelated(b.to, shuffled[k].to) {
      var i :| 0 <= i < k && shuffled[i] == b;
      MadeFromTo(layout, items, shuffled, i, k);
      var x, y := TwoItems(layout, items, shuffled, i, k);
      ToApart(layout, x, y);
    }
  }

  /**
   * However a validated plan ends, in whatever order: some first moves have been made in full and the others
   * not at all, so every file is where it was or where its move says, once. With --force, the destinations of
   * the moves that were made have been cleared before, and perhaps that of the one that failed.
   */
  lemma StoppedRunLosesNothing(tree: Tree, layout: Layout, clusters: seq<string>, rewriter: Rewriter,
                               items: seq<Item>, plan: seq<Move>, shuffled: seq<Move>, force: bool)
    returns (made: nat, cleared: nat)
    requires Plans(tree, layout, clusters, items, plan) && ZonesApart(layout)
    requires WellFormed(tree) && multiset(plan) == multiset(shuffled)
    requires ValidateLayoutMovePlan(tree, plan, force)
    ensures made <= cleared <= |shuffled| && cleared <= made + 1
    ensures var after := ApplyAll(tree, shuffled, force, rewriter);
      var base := Base(tree, shuffled[..cleared], force);
      && (after.ok <==> made == |shuffled|)
      && Relocated(base, shuffled[..made], after.tree, rewriter) && |after.tree| == |base|
  {
    hide Plans, ZonesApart, WellFormed, ApplyAll, Relocated, Compatible, Cleared, ApplyMove, MovesOf;
    var k := Made(tree, shuffled, force, rewriter);
    var moves, last := shuffled[..k], ApplyAll(tree, shuffled, force, rewriter);
    MadeThenFails(tree, shuffled, force, rewriter);
    MadeCompatible(tree, layout, clusters, rewriter, items, plan, shuffled, k, force);
    SameElements(plan, shuffled);
    if !force { NothingToClear(tree, moves); }
    RunsLikeCleared(tree, moves, moves, force, rewriter);
    var done := ApplyAll(tree, moves, force, rewriter).tree;
    made, cleared := k, k;
    if k < |shuffled| {
      FailedMove(done, shuffled[k], force, rewriter);
      if last.tree != done {
        cleared := k + 1;
        PlansGive(tree, layout, clusters, items, plan);
        LastElsewhere(layout, items, shuffled, k);
        RemovedElsewhere(Cleared(tree, moves), moves, done, rewriter, shuffled[k].to);
        ClearedOneMore(tree, shuffled, k);
      }
    }
    RelocatedKeepsSize(Base(tree, shuffled[..cleared], force), moves, last.tree, rewriter);
  }

  lemma PlansGive(tree: Tree, layout: Layout, clusters: seq<string>, items: seq<Item>, plan: seq<Move>)
    requires Plans(tree, layout, clusters, items, plan)
    ensures plan == MovesOf(layout, items) && Distinct(items)
  {
  }

  // ---------------------------------------------------------------- running it again

  const GIT := GitOps(".git")

  lemma GitApart(layout: Layout, item: Item)
    requires item != GIT && (item.GitOps? ==> item.name != "secrets" && !IsConfigName(item.name))
    ensures Unrelated(layout.legacy + [".git"], MoveOf(layout, item).from)
  {
    hide Unrelated, IsConfigName;
    GitIsNoConfig();
    SourcesApart(GIT, item);
    UnrelatedTails(layout.legacy, SourceIn(GIT), SourceIn(item));
  }

  lemma GitIsNoConfig()
    ensures !IsConfigName(".git")
  {
  }

  lemma GitMoveFirst(tree: Tree, layout: Layout, clusters: seq<string>, items: seq<Item>, moves: seq<Move>, p: Path)
    requires Plans(tree, layout, clusters, items, MovesOf(layout, items))
    requires forall m :: m in moves ==> m in MovesOf(layout, items)
    requires layout.legacy + [".git"] <= p && MoveOf(layout, GIT) !in moves
    ensures Mover(moves, p).None?
  {
    hide Unrelated, MoveOf, MovesOf, Distinct, IsConfigName, Exists, Claims, Mover;
    MoverTakes(moves, p);
    if Mover(moves, p).Some? {
      var m := Mover(moves, p).value;
      var x := ItemOf(layout, items, m);
      assert Listed(tree, layout, clusters, x);
      GitApart(layout, x);
      NotBelowBoth(layout.legacy + [".git"], m.from, p);
    }
  }

  /** After some moves of a plan the Git repository is still there exactly when its own move is not among them. */
  lemma RepositoryLeftExactlyWhen(tree: Tree, layout: Layout, clusters: seq<string>, rewriter: Rewriter,
                                  items: seq<Item>, moves: seq<Move>, base: Tree, after: Tree)
    requires Plans(tree, layout, clusters, items, MovesOf(layout, items)) && ZonesApart(layout)
    requires forall m :: m in moves ==> m in MovesOf(layout, items)
    requires Relocated(base, moves, after, rewriter) && Exists(base, layout.legacy + [".git"])
    ensures Exists(after, layout.legacy + [".git"]) <==> MoveOf(layout, GIT) !in moves
  {
    hide ZonesApart, Unrelated, MoveOf, MovesOf, Distinct, Listed, Mover, NewText;
    var git := layout.legacy + [".git"];
    GitSource(layout);
    if MoveOf(layout, GIT) in moves {
      forall q | q in after && git <= q ensures false {
        var p :| p in base && Target(moves, p) == q;
        MoverTakes(moves, p);
        if Mover(moves, p).Some? {
          var x := ItemOf(layout, items, Mover(moves, p).value);
          FromToApart(layout, GIT, x);
          NotBelowBoth(git, MoveOf(layout, x).to, q);
        }
      }
    } else {
      var p :| p in base && git <= p;
      GitMoveFirst(tree, layout, clusters, items, moves, p);
    }
  }

  lemma GitSource(layout: Layout)
    ensures MoveOf(layout, GIT).from == layout.legacy + [".git"]
  {
  }

  /**
   * A run over a legacy layout that got as far as moving the Git repository cannot be started again, finished
   * or not: the second run is refused, and a run that stopped earlier has left the repository in place.
   */
  lemma RestartNeedsTheRepository(tree: Tree, layout: Layout, clusters: seq<string>, rewriter: Rewriter,
                                  items: seq<Item>, plan: seq<Move>, shuffled: seq<Move>, force: bool)
    returns (made: nat)
    requires Plans(tree, layout, clusters, items, plan) && ZonesApart(layout)
    requires WellFormed(tree) && multiset(plan) == multiset(shuffled)
    requires ValidateLayoutMovePlan(tree, plan, force) && Exists(tree, layout.legacy + [".git"])
    ensures made <= |shuffled|
    ensures var after := ApplyAll(tree, shuffled, force, rewriter);
      && (after.ok <==> made == |shuffled|)
      && (Exists(after.tree, layout.legacy + [".git"]) <==> MoveOf(layout, GIT) !in shuffled[..made])
      && (MoveOf(layout, GIT) in shuffled[..made] ==> !IsLegacyLayout(after.tree, layout.legacy))
      && (after.ok ==> !IsLegacyLayout(after.tree, layout.legacy))
  {
    hide Plans, ZonesApart, WellFormed, ApplyAll, Relocated, Exists, MoveOf, MovesOf, Cleared;
    var cleared: nat;
    made, cleared := StoppedRunLosesNothing(tree, layout, clusters, rewriter, items, plan, shuffled, force);
    var after := ApplyAll(tree, shuffled, force, rewriter);
    var moves, base := shuffled[..made], Base(tree, shuffled[..cleared], force);
    SameElements(plan, shuffled);
    PlansGive(tree, layout, clusters, items, plan);
    GitSource(layout);
    GitKept(tree, layout, items, shuffled[..cleared], force);
    RepositoryLeftExactlyWhen(tree, layout, clusters, rewriter, items, moves, base, after.tree);
    if after.ok {
      GitListed(tree, layout, clusters, items);
      assert moves == shuffled;
    }
  }

  lemma GitListed(tree: Tree, layout: Layout, clusters: seq<string>, items: seq<Item>)
    requires Plans(tree, layout, clusters, items, MovesOf(layout, items)) && Exists(tree, layout.legacy + [".git"])
    ensures MoveOf(layout, GIT) in MovesOf(layout, items)
  {
    hide MoveOf, MovesOf, Distinct, Exists;
    GitIsNoConfig();
    assert Listed(tree, layout, clusters, GIT);
    InPlan(layout, items, GIT);
  }

  lemma GitKept(tree: Tree, layout: Layout, items: seq<Item>, moves: seq<Move>, force: bool)
    requires ZonesApart(layout) && Exists(tree, layout.legacy + [".git"])
    requires forall m :: m in moves ==> m in MovesOf(layout, items)
    ensures Exists(Base(tree, moves, force), layout.legacy + [".git"])
  {
    hide ZonesApart, Unrelated, MoveOf, MovesOf, Cleared;
    GitSource(layout);
    forall m | m in moves ensures Unrelated(layout.legacy + [".git"], m.to) {
      var x := ItemOf(layout, items, m);
      FromToApart(layout, GIT, x);
    }
    SourceUncleared(tree, moves, layout.legacy + [".git"]);
  }

  /** A finished migration of all discovered clusters leaves nothing but unclaimed secrets, and .-config.yaml. */
  lemma OnlySecretsStayBehind(tree: Tree, layout: Layout, clusters: seq<string>, rewriter: Rewriter,
                              items: seq<Item>, plan: seq<Move>, force: bool, after: Tree, q: Path)
    requires Discovers(tree, layout.legacy, clusters)
    requires Plans(tree, layout, clusters, items, plan) && ZonesApart(layout)
    requires Relocated(Base(tree, plan, force), plan, after, rewriter) && q in after && layout.legacy < q
    ensures q[|layout.legacy|] == "secrets" || q[|layout.legacy|] == ".-config.yaml"
    ensures q in tree && after[q] == tree[q]
  {
    hide Relocated, Plans, ZonesApart, IsConfigName, Base, SourceIn, ClusterName;
    WhatStaysBehind(tree, layout, clusters, rewriter, items, plan, force, after, q);
    var n := q[|layout.legacy|];
    if IsConfigName(n) {
      var c := ClusterName(n);
      ConfigNameOf(n);
      var source := layout.legacy + [n];
      assert source == q[..|source|];
      assert Exists(tree, source);
      assert c != "" ==> Listed(tree, layout, clusters, Config(c));
      assert c == "";
      NamelessConfig(n);
    }
  }

  lemma NamelessConfig(name: string)
    requires IsConfigName(name) && ClusterName(name) == ""
    ensures name == ".-config.yaml"
  {
    ConfigNameOf(name);
  }
}
