/** The migration as it runs: cmd/cluster_migrate_layout.go on a file tree it changes step by step. */
module LayoutProgram {
  import opened Paths
  import opened LayoutMoves
  import opened LayoutPlan
  import opened LayoutDiscovery

  class FileTree {
    var files: Tree

    constructor (files: Tree)
      ensures this.files == files
    {
      this.files := files;
    }

    /** Stops at the first source that is gone or destination that is taken. */
    method ValidatePlan(plan: seq<Move>, force: bool) returns (ok: bool)
      ensures ok <==> ValidateLayoutMovePlan(files, plan, force)
    {
      for k := 0 to |plan|
        invariant ValidateLayoutMovePlan(files, plan[..k], force)
      {
        assert plan[k] in plan && plan[..k + 1] == plan[..k] + [plan[k]];
        if !Exists(files, plan[k].from) { return false; }
        if Exists(files, plan[k].to) && !force { return false; }
      }
      assert plan[..|plan|] == plan;
      return true;
    }

    method RewriteLegacyClusterConfig(from: Path, to: Path, rewriter: Rewriter) returns (ok: bool)
      modifies this
      ensures ok <==>
        from in old(files) && rewriter(from, old(files)[from]).Some? && (Exists(old(files), to) ==> to in old(files))
      ensures files == if ok then old(files)[to := rewriter(from, old(files)[from]).value] else old(files)
    {
      if from !in files { return false; }
      var text := rewriter(from, files[from]);
      if text.None? || (Exists(files, to) && to !in files) { return false; }
      files := files[to := text.value];
      return true;
    }

    method MoveLayoutPath(from: Path, to: Path) returns (ok: bool)
      modifies this
      ensures ok <==> CanRename(old(files), from, to)
      ensures files == if ok then Rename(old(files), from, to) else old(files)
    {
      ok := CanRename(files, from, to);
      if ok { files := Rename(files, from, to); }
    }

    method ApplyLayoutMove(move: Move, force: bool, rewriter: Rewriter) returns (ok: bool)
      modifies this
      ensures Outcome(ok, files) == ApplyMove(old(files), move, force, rewriter)
    {
      hide Exists, HasParents, CanRename, Rename;
      if !HasParents(files, move.to) { return false; }
      if force { files := RemoveAll(files, move.to); }
      if move.rewriteConfig {
        ok := RewriteLegacyClusterConfig(move.from, move.to, rewriter);
        if ok { files := RemoveFile(files, move.from); }
        return;
      }
      ok := MoveLayoutPath(move.from, move.to);
    }

    /** The moves one after the other, up to the first that cannot be made. */
    method ApplyMoves(plan: seq<Move>, force: bool, rewriter: Rewriter) returns (ok: bool)
      modifies this
      ensures Outcome(ok, files) == ApplyAll(old(files), plan, force, rewriter)
    {
      hide ApplyMove;
      for k := 0 to |plan|
        invariant ApplyAll(old(files), plan, force, rewriter) == ApplyAll(files, plan[k..], force, rewriter)
      {
        assert plan[k..][1..] == plan[k + 1..];
        ok := ApplyLayoutMove(plan[k], force, rewriter);
        if !ok { return; }
      }
      ok := true;
    }

    /**
     * The whole command. Nothing changes, and it is an error, without a legacy layout, without clusters in it,
     * with private paths inside the GitOps directory, without anything to move, or with a plan that is not
     * valid; nothing changes in a dry run; otherwise the moves of the plan are made in order.
     */
    method RunClusterMigrateLayout(layout: Layout, dryRun: bool, force: bool, rewriter: Rewriter)
      returns (ok: bool, ghost clusters: seq<string>, ghost items: seq<Item>, ghost plan: seq<Move>)
      modifies this
      ensures Migratable(old(files), layout.legacy) ==> Discovers(old(files), layout.legacy, clusters)
      ensures var go := Migratable(old(files), layout.legacy) && clusters != [] && AllValid(layout, clusters);
        && (!go ==> !ok && files == old(files))
        && (go ==> Plans(old(files), layout, clusters, items, plan) &&
                   var valid := plan != [] && ValidateLayoutMovePlan(old(files), plan, force);
                   if valid && !dryRun then Outcome(ok, files) == ApplyAll(old(files), plan, force, rewriter)
                   else ok == valid && files == old(files))
    {
      hide ApplyAll, ValidPaths, Plans, ValidateLayoutMovePlan, Discovers, IsLegacyLayout, NoDirectory;
      clusters, items, plan := [], [], [];
      ok := EnsureLegacyLayoutForMigration(files, layout.legacy);
      if !ok { return; }
      var names := DiscoverLegacyLayoutClusters(files, layout.legacy);
      if names.None? { return false, [], [], []; }
      clusters := names.value;
      if |names.value| == 0 { return false, clusters, [], []; }
      DiscoveredDistinct(files, layout.legacy, names.value);
      var built, listed := BuildLayoutMigrationPlan(files, layout, names.value);
      if built.None? { return false, clusters, [], []; }
      items, plan := listed, built.value;
      if |built.value| == 0 { return false, clusters, items, plan; }
      ok := ValidatePlan(built.value, force);
      if !ok || dryRun { return; }
      ok := ApplyMoves(built.value, force, rewriter);
    }
  }
}
