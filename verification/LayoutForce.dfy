/** What --force changes: only what is at the destinations goes, before anything is moved. */
module LayoutForce {
  import opened Paths
  import opened LayoutMoves

  predicate Occupied(moves: seq<Move>, p: Path) {
    exists m :: m in moves && m.to <= p
  }

  function Cleared(tree: Tree, moves: seq<Move>): Tree {
    map p | p in tree && !Occupied(moves, p) :: tree[p]
  }

  lemma ClearedInTwo(tree: Tree, moves: seq<Move>)
    requires moves != []
    ensures Cleared(tree, moves) == Cleared(RemoveAll(tree, moves[0].to), moves[1..])
  {
  }

  /** The rest of the destinations are neither at the source nor at the destination of m. */
  ghost predicate Elsewhere(m: Move, rest: seq<Move>) {
    forall b :: b in rest ==> Unrelated(m.from, b.to) && Unrelated(m.to, b.to)
  }

  lemma ElsewhereFree(m: Move, rest: seq<Move>, p: Path)
    requires Elsewhere(m, rest) && (m.from <= p || m.to <= p)
    ensures !Occupied(rest, p)
  {
  }

  lemma RenameCommutes(tree: Tree, m: Move, rest: seq<Move>)
    requires Elsewhere(m, rest) && forall p :: p in tree ==> Unrelated(p, m.to)
    ensures Cleared(Rename(tree, m.from, m.to), rest) == Rename(Cleared(tree, rest), m.from, m.to)
  {
    hide Unrelated, Elsewhere, Occupied, Below, Rename;
    var moved, cleared := Rename(tree, m.from, m.to), Cleared(tree, rest);
    RenameFacts(tree, m.from, m.to);
    RenameFacts(cleared, m.from, m.to);
    var left, right := Cleared(moved, rest), Rename(cleared, m.from, m.to);
    forall p | p in tree
      ensures m.from <= p ==> p in cleared && !Occupied(rest, Below(m.from, m.to, p))
    {
      if m.from <= p {
        ElsewhereFree(m, rest, p);
        ElsewhereFree(m, rest, Below(m.from, m.to, p));
      }
    }
    forall q | q in left ensures q in right && left[q] == right[q] {
      var p :| p in tree && q == if m.from <= p then Below(m.from, m.to, p) else p;
    }
    forall q | q in right ensures q in left {
      var p :| p in cleared && q == if m.from <= p then Below(m.from, m.to, p) else p;
    }
    assert left.Keys == right.Keys;
  }

  lemma RewriteCommutes(tree: Tree, m: Move, rest: seq<Move>, text: string)
    requires Elsewhere(m, rest)
    ensures Cleared(RemoveFile(tree[m.to := text], m.from), rest) ==
      RemoveFile(Cleared(tree, rest)[m.to := text], m.from)
  {
  }

  /** Clearing the other destinations before or after the first move is the same. */
  lemma FirstMoveForced(tree: Tree, moves: seq<Move>, rewriter: Rewriter)
    requires moves != [] && Compatible(Cleared(tree, moves), moves, rewriter)
    ensures var first := ApplyMove(tree, moves[0], true, rewriter);
      var clean := ApplyMove(Cleared(tree, moves), moves[0], true, rewriter);
      first.ok && clean.ok && Cleared(first.tree, moves[1..]) == clean.tree
  {
    hide Compatible, Rename, RemoveFile, Below, Occupied, Elsewhere, Apart, Relocated, Cleared;
    var m, rest := moves[0], moves[1..];
    var tidy, all := RemoveAll(tree, m.to), Cleared(tree, moves);
    ClearedInTwo(tree, moves);
    OnlyFirst(all, moves, rewriter);
    OneMove(all, m, true, rewriter);
    ReadyToMove(all, m, rewriter);
    RestElsewhere(all, moves, rewriter);
    ParentsStay(tree, moves, rewriter);
    TidyIsUnrelated(tree, m);
    ClearedInside(tidy, rest);
    if m.rewriteConfig {
      RewriteCommutes(tidy, m, rest, rewriter(m.from, tidy[m.from]).value);
    } else {
      RenameCommutes(tidy, m, rest);
    }
  }

  lemma ClearedInside(tree: Tree, moves: seq<Move>)
    ensures forall p :: p in Cleared(tree, moves) ==> p in tree && Cleared(tree, moves)[p] == tree[p]
  {
  }

  lemma RestElsewhere(tree: Tree, moves: seq<Move>, rewriter: Rewriter)
    requires moves != [] && Compatible(tree, moves, rewriter)
    ensures Elsewhere(moves[0], moves[1..])
  {
  }

  lemma ParentsStay(tree: Tree, moves: seq<Move>, rewriter: Rewriter)
    requires moves != [] && Compatible(Cleared(tree, moves), moves, rewriter)
    ensures HasParents(tree, moves[0].to)
  {
    hide Unrelated;
    assert moves[0] in moves;
    forall p | p in tree && p < moves[0].to ensures p in Cleared(tree, moves) {
      forall b | b in moves ensures !(b.to <= p) {
        var i :| 0 <= i < |moves| && moves[i] == b;
        AboveIsFree(b.to, p, moves[0].to);
      }
    }
    AllParents(tree, moves, rewriter);
  }

  lemma AllParents(tree: Tree, moves: seq<Move>, rewriter: Rewriter)
    requires moves != [] && Compatible(Cleared(tree, moves), moves, rewriter)
    requires forall p :: p in tree && p < moves[0].to ==> p in Cleared(tree, moves)
    ensures HasParents(tree, moves[0].to)
  {
  }

  lemma AboveIsFree(to: Path, p: Path, other: Path)
    requires p < other && (to == other || Unrelated(other, to))
    ensures !(to <= p)
  {
  }

  lemma TidyIsUnrelated(tree: Tree, m: Move)
    requires HasParents(tree, m.to)
    ensures forall p :: p in RemoveAll(tree, m.to) ==> Unrelated(p, m.to)
    ensures !Exists(RemoveAll(tree, m.to), m.to) && HasParents(tree, m.to)
  {
  }

  /**
   * With --force, moves that are compatible once their destinations are clear end as if exactly what
   * was at or below the destinations had been deleted beforehand.
   */
  lemma {:induction false} ForceReplacesDestinations(tree: Tree, moves: seq<Move>, rewriter: Rewriter)
    requires Compatible(Cleared(tree, moves), moves, rewriter)
    ensures var after := ApplyAll(tree, moves, true, rewriter);
      && after.ok && after == ApplyAll(Cleared(tree, moves), moves, true, rewriter)
      && Relocated(Cleared(tree, moves), moves, after.tree, rewriter)
    decreases |moves|
  {
    hide Compatible, ApplyMove, Relocated, Cleared;
    MovesRelocate(Cleared(tree, moves), moves, true, rewriter);
    if moves == [] {
      NothingCleared(tree);
    } else {
      var all := Cleared(tree, moves);
      FirstMoveForced(tree, moves, rewriter);
      OnlyFirst(all, moves, rewriter);
      OneMove(all, moves[0], true, rewriter);
      RestCompatible(all, moves, ApplyMove(all, moves[0], true, rewriter).tree, rewriter);
      ForceReplacesDestinations(ApplyMove(tree, moves[0], true, rewriter).tree, moves[1..], rewriter);
    }
  }

  lemma NothingCleared(tree: Tree)
    ensures Cleared(tree, []) == tree
  {
  }
}
