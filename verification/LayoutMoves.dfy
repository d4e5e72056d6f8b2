/**
 * Moving subtrees of a file tree, as cmd/cluster_migrate_layout.go does: a tree is the map from the
 * paths of its files to their contents, and a path exists when some file is at or below it.
 */
module LayoutMoves {
  import opened Paths
  import opened Sequences
  import opened Text

  type Tree = map<Path, string>

  /** rewriteConfig moves go through this; None is a config that does not parse. */
  type Rewriter = (Path, string) -> Option<string>

  datatype Move = Move(from: Path, to: Path, rewriteConfig: bool)

  /** What a move did: a failed one may already have cleared its destination. */
  datatype Outcome = Outcome(ok: bool, tree: Tree)

  predicate Exists(tree: Tree, path: Path) {
    exists p :: p in tree && path <= p
  }

  function RemoveAll(tree: Tree, path: Path): Tree {
    map p | p in tree && !(path <= p) :: tree[p]
  }

  function Below(from: Path, to: Path, p: Path): (r: Path)
    requires from <= p
    ensures to <= r
  {
    to + p[|from|..]
  }

  lemma BelowInjective(from: Path, to: Path, p: Path, q: Path)
    requires from <= p && from <= q && Below(from, to, p) == Below(from, to, q)
    ensures p == q
  {
    assert p == from + Below(from, to, p)[|to|..] && q == from + Below(from, to, q)[|to|..];
  }

  lemma BelowInjectiveAll(from: Path, to: Path)
    ensures forall p, q :: from <= p && from <= q && Below(from, to, p) == Below(from, to, q) ==> p == q
  {
    forall p, q | from <= p && from <= q && Below(from, to, p) == Below(from, to, q) ensures p == q {
      BelowInjective(from, to, p, q);
    }
  }

  /** os.Rename of a file or a directory to a free name */
  function Rename(tree: Tree, from: Path, to: Path): Tree {
    BelowInjectiveAll(from, to);
    (map p | p in tree && !(from <= p) :: tree[p]) +
    (map p | p in tree && from <= p :: Below(from, to, p) := tree[p])
  }

  /** No file stands where a directory above path is needed. */
  predicate HasParents(tree: Tree, path: Path) {
    forall p :: p in tree ==> !(p < path)
  }

  function ApplyMove(tree: Tree, move: Move, force: bool, rewriter: Rewriter): Outcome {
    if !HasParents(tree, move.to) then Outcome(false, tree)
    else PutInPlace(if force then RemoveAll(tree, move.to) else tree, move, rewriter)
  }

  function PutInPlace(tree: Tree, move: Move, rewriter: Rewriter): Outcome {
    if move.rewriteConfig then
      if move.from !in tree || (Exists(tree, move.to) && move.to !in tree) then Outcome(false, tree)
      else
        match rewriter(move.from, tree[move.from])
        case None => Outcome(false, tree)
        case Some(text) => Outcome(true, RemoveFile(tree[move.to := text], move.from))
    else if CanRename(tree, move.from, move.to) then Outcome(true, Rename(tree, move.from, move.to))
    else Outcome(false, tree)
  }

  /** os.Rename replaces a file by a file, and nothing else that exists. */
  predicate CanRename(tree: Tree, from: Path, to: Path) {
    Exists(tree, from) && !(from < to) && (Exists(tree, to) ==> from in tree && to in tree)
  }

  function RemoveFile(tree: Tree, path: Path): Tree {
    map p | p in tree && p != path :: tree[p]
  }

  /** The moves one after the other, up to the first that fails. */
  function ApplyAll(tree: Tree, moves: seq<Move>, force: bool, rewriter: Rewriter): Outcome
    decreases |moves|
  {
    if moves == [] then Outcome(true, tree)
    else
      var first := ApplyMove(tree, moves[0], force, rewriter);
      if first.ok then ApplyAll(first.tree, moves[1..], force, rewriter) else first
  }

  // ---------------------------------------------------------------- where every file goes

  /** The move that takes a file along, if any. */
  function Mover(moves: seq<Move>, p: Path): Option<Move> {
    if moves == [] then None
    else if moves[0].from <= p then Some(moves[0])
    else Mover(moves[1..], p)
  }

  function Target(moves: seq<Move>, p: Path): Path {
    var m := Mover(moves, p);
    MoverTakes(moves, p);
    if m.None? then p else Below(m.value.from, m.value.to, p)
  }

  lemma MoverTakes(moves: seq<Move>, p: Path)
    ensures Mover(moves, p).Some? ==> Mover(moves, p).value in moves && Mover(moves, p).value.from <= p
    ensures Mover(moves, p).None? ==> forall m :: m in moves ==> !(m.from <= p)
  {
    if moves != [] {
      assert moves == [moves[0]] + moves[1..];
      MoverTakes(moves[1..], p);
    }
  }

  function NewText(moves: seq<Move>, p: Path, text: string, rewriter: Rewriter): string {
    var m := Mover(moves, p);
    if m.None? || !m.value.rewriteConfig then text
    else if rewriter(m.value.from, text).Some? then rewriter(m.value.from, text).value else text
  }

  /** after holds every file of before, once, at its target, and nothing else. */
  ghost predicate Relocated(before: Tree, moves: seq<Move>, after: Tree, rewriter: Rewriter) {
    && (forall p :: p in before ==>
          Target(moves, p) in after && after[Target(moves, p)] == NewText(moves, p, before[p], rewriter))
    && (forall q :: q in after ==> exists p :: p in before && Target(moves, p) == q)
    && (forall p, q :: p in before && q in before && Target(moves, p) == Target(moves, q) ==> p == q)
  }

  /** No two sources nested, no two destinations nested. */
  ghost predicate Apart(moves: seq<Move>) {
    forall i, j :: 0 <= i < j < |moves| ==>
      Unrelated(moves[i].from, moves[j].from) && Unrelated(moves[i].to, moves[j].to)
  }

  /** The moves that cannot disturb each other on this tree. */
  ghost predicate Compatible(tree: Tree, moves: seq<Move>, rewriter: Rewriter) {
    && Apart(moves)
    && (forall a, b :: a in moves && b in moves ==> Unrelated(a.from, b.to))
    && (forall p, m :: p in tree && m in moves ==> Unrelated(p, m.to))
    && (forall m :: m in moves ==> Exists(tree, m.from))
    && (forall m :: m in moves && m.rewriteConfig ==>
          m.from in tree && rewriter(m.from, tree[m.from]).Some? && forall p :: p in tree ==> !(m.from < p))
  }

  // ---------------------------------------------------------------- one move, then the rest

  lemma TargetOfOne(m: Move, p: Path, text: string, rewriter: Rewriter)
    ensures Target([m], p) == if m.from <= p then Below(m.from, m.to, p) else p
    ensures NewText([m], p, text, rewriter) ==
      if m.from <= p && m.rewriteConfig && rewriter(m.from, text).Some? then rewriter(m.from, text).value else text
  {
    assert Mover([m], p) == if m.from <= p then Some(m) else Mover([], p);
  }

  lemma RenameFacts(tree: Tree, from: Path, to: Path)
    requires forall p :: p in tree ==> Unrelated(p, to)
    ensures var after := Rename(tree, from, to);
      && (forall p :: p in tree && from <= p ==> Below(from, to, p) in after && after[Below(from, to, p)] == tree[p])
      && (forall p :: p in tree && !(from <= p) ==> p in after && after[p] == tree[p])
      && (forall q :: q in after ==> exists p :: p in tree && q == if from <= p then Below(from, to, p) else p)
  {
    hide Below;
    BelowInjectiveAll(from, to);
  }

  lemma OneMoveInjective(tree: Tree, m: Move, p: Path, q: Path)
    requires (forall r :: r in tree ==> Unrelated(r, m.to)) && p in tree && q in tree
    requires (if m.from <= p then Below(m.from, m.to, p) else p) == (if m.from <= q then Below(m.from, m.to, q) else q)
    ensures p == q
  {
    if m.from <= p && m.from <= q {
      BelowInjective(m.from, m.to, p, q);
    } else {
      assert Unrelated(p, m.to) && Unrelated(q, m.to);
    }
  }

  lemma RenameRelocates(tree: Tree, m: Move, rewriter: Rewriter)
    requires (forall p :: p in tree ==> Unrelated(p, m.to)) && !m.rewriteConfig
    ensures Relocated(tree, [m], Rename(tree, m.from, m.to), rewriter)
  {
    hide Target, NewText, Rename, Unrelated, Below;
    var after := Rename(tree, m.from, m.to);
    RenameFacts(tree, m.from, m.to);
    forall p | p in tree
      ensures Target([m], p) == (if m.from <= p then Below(m.from, m.to, p) else p)
      ensures NewText([m], p, tree[p], rewriter) == tree[p]
    {
      TargetOfOne(m, p, tree[p], rewriter);
    }
    forall p, q | p in tree && q in tree && Target([m], p) == Target([m], q) ensures p == q {
      OneMoveInjective(tree, m, p, q);
    }
  }

  lemma RewriteRelocates(tree: Tree, m: Move, text: string, rewriter: Rewriter)
    requires Compatible(tree, [m], rewriter) && m.rewriteConfig && m.from in tree
    requires rewriter(m.from, tree[m.from]) == Some(text)
    ensures Relocated(tree, [m], RemoveFile(tree[m.to := text], m.from), rewriter)
  {
    var after := RemoveFile(tree[m.to := text], m.from);
    hide Target, NewText;
    assert m in [m];
    forall p | p in tree
      ensures Target([m], p) == (if p == m.from then m.to else p)
      ensures NewText([m], p, tree[p], rewriter) == if p == m.from then text else tree[p]
    {
      TargetOfOne(m, p, tree[p], rewriter);
      assert m.from <= p <==> p == m.from;
    }
    assert m.to !in tree && m.to != m.from;
    assert Target([m], m.from) == m.to;
  }

  lemma ReadyToMove(tree: Tree, m: Move, rewriter: Rewriter)
    requires Compatible(tree, [m], rewriter)
    ensures RemoveAll(tree, m.to) == tree && HasParents(tree, m.to) && !Exists(tree, m.to)
    ensures Exists(tree, m.from) && CanRename(tree, m.from, m.to)
    ensures m.rewriteConfig ==> m.from in tree && rewriter(m.from, tree[m.from]).Some?
    ensures forall p :: p in tree ==> Unrelated(p, m.to)
  {
  }

  lemma OneMove(tree: Tree, move: Move, force: bool, rewriter: Rewriter)
    requires Compatible(tree, [move], rewriter)
    ensures var next := ApplyMove(tree, move, force, rewriter);
      next.ok && Relocated(tree, [move], next.tree, rewriter)
  {
    hide Compatible, Relocated, Rename, RemoveFile, RemoveAll, HasParents, CanRename, Exists, Unrelated;
    ReadyToMove(tree, move, rewriter);
    if move.rewriteConfig {
      RewriteRelocates(tree, move, rewriter(move.from, tree[move.from]).value, rewriter);
    } else {
      RenameRelocates(tree, move, rewriter);
    }
  }

  /** The first move takes no file that another move takes, and leaves none where another looks. */
  lemma TargetComposes(moves: seq<Move>, p: Path, text: string, rewriter: Rewriter)
    requires moves != [] && forall b :: b in moves[1..] ==> Unrelated(b.from, moves[0].to)
    ensures var q := Target(moves[..1], p);
      && Target(moves[1..], q) == Target(moves, p)
      && NewText(moves[1..], q, NewText(moves[..1], p, text, rewriter), rewriter) == NewText(moves, p, text, rewriter)
  {
    var m, rest := moves[0], moves[1..];
    assert moves[..1] == [m];
    TargetOfOne(m, p, text, rewriter);
    if m.from <= p {
      var q := Below(m.from, m.to, p);
      MoverTakes(rest, q);
      if Mover(rest, q).Some? { PrefixesOfOne(Mover(rest, q).value.from, m.to, q); }
    }
  }

  lemma Compose(tree: Tree, moves: seq<Move>, next: Tree, after: Tree, rewriter: Rewriter)
    requires moves != [] && (forall b :: b in moves[1..] ==> Unrelated(b.from, moves[0].to))
    requires Relocated(tree, moves[..1], next, rewriter) && Relocated(next, moves[1..], after, rewriter)
    ensures Relocated(tree, moves, after, rewriter)
  {
    hide Target, NewText;
    forall p | p in tree
      ensures Target(moves[1..], Target(moves[..1], p)) == Target(moves, p)
      ensures Target(moves, p) in after && after[Target(moves, p)] == NewText(moves, p, tree[p], rewriter)
    {
      TargetComposes(moves, p, tree[p], rewriter);
    }
    forall q | q in after ensures exists p :: p in tree && Target(moves, p) == q {
      var r :| r in next && Target(moves[1..], r) == q;
      var p :| p in tree && Target(moves[..1], p) == r;
    }
  }

  lemma RestFresh(tree: Tree, moves: seq<Move>, next: Tree, rewriter: Rewriter, q: Path, b: Move)
    requires moves != [] && Compatible(tree, moves, rewriter) && Relocated(tree, moves[..1], next, rewriter)
    requires q in next && b in moves[1..]
    ensures Unrelated(q, b.to) && (b.rewriteConfig ==> !(b.from < q))
  {
    hide Target, NewText;
    var m := moves[0];
    assert moves[..1] == [m];
    var p :| p in tree && Target([m], p) == q;
    TargetOfOne(m, p, tree[p], rewriter);
    var j :| 1 <= j < |moves| && moves[j] == b;
    if m.from <= p {
      UnrelatedBelow(m.to, b.to, q);
      if b.from < q { PrefixesOfOne(b.from, m.to, q); }
    }
  }

  lemma RestPresent(tree: Tree, moves: seq<Move>, next: Tree, rewriter: Rewriter, b: Move)
    requires moves != [] && Compatible(tree, moves, rewriter) && Relocated(tree, moves[..1], next, rewriter)
    requires b in moves[1..]
    ensures Exists(next, b.from)
    ensures b.rewriteConfig ==> b.from in next && next[b.from] == tree[b.from]
  {
    hide Target, NewText;
    var m := moves[0];
    assert moves[..1] == [m];
    var j :| 1 <= j < |moves| && moves[j] == b;
    var p :| p in tree && b.from <= p;
    if m.from <= p { PrefixesOfOne(m.from, b.from, p); }
    TargetOfOne(m, p, tree[p], rewriter);
    if b.rewriteConfig { TargetOfOne(m, b.from, tree[b.from], rewriter); }
  }

  lemma RestCompatible(tree: Tree, moves: seq<Move>, next: Tree, rewriter: Rewriter)
    requires moves != [] && Compatible(tree, moves, rewriter) && Relocated(tree, moves[..1], next, rewriter)
    ensures Compatible(next, moves[1..], rewriter)
  {
    hide Relocated, Unrelated, Exists;
    var rest := moves[1..];
    forall q, b | q in next && b in rest ensures Unrelated(q, b.to) { RestFresh(tree, moves, next, rewriter, q, b); }
    forall b | b in rest ensures Exists(next, b.from) { RestPresent(tree, moves, next, rewriter, b); }
    forall b | b in rest && b.rewriteConfig
      ensures b.from in next && rewriter(b.from, next[b.from]).Some? && forall p :: p in next ==> !(b.from < p)
    {
      RestPresent(tree, moves, next, rewriter, b);
      forall p | p in next ensures !(b.from < p) { RestFresh(tree, moves, next, rewriter, p, b); }
    }
  }

  lemma OnlyFirst(tree: Tree, moves: seq<Move>, rewriter: Rewriter)
    requires moves != [] && Compatible(tree, moves, rewriter)
    ensures Compatible(tree, [moves[0]], rewriter) && [moves[0]] == moves[..1]
    ensures forall b :: b in moves[1..] ==> Unrelated(b.from, moves[0].to)
  {
  }

  lemma NoMoves(tree: Tree, rewriter: Rewriter)
    ensures Relocated(tree, [], tree, rewriter)
  {
    assert forall p :: Target([], p) == p;
  }

  /** Compatible moves all succeed, in the order given, and take every file to its target. */
  lemma {:induction false} MovesRelocate(tree: Tree, moves: seq<Move>, force: bool, rewriter: Rewriter)
    requires Compatible(tree, moves, rewriter)
    ensures var after := ApplyAll(tree, moves, force, rewriter);
      after.ok && Relocated(tree, moves, after.tree, rewriter)
    decreases |moves|
  {
    hide Compatible, Relocated, ApplyMove, Unrelated, Target, NewText, Mover;
    if moves == [] {
      NoMoves(tree, rewriter);
    } else {
      OnlyFirst(tree, moves, rewriter);
      OneMove(tree, moves[0], force, rewriter);
      var next := ApplyMove(tree, moves[0], force, rewriter).tree;
      RestCompatible(tree, moves, next, rewriter);
      MovesRelocate(next, moves[1..], force, rewriter);
      Compose(tree, moves, next, ApplyAll(next, moves[1..], force, rewriter).tree, rewriter);
    }
  }

  // ---------------------------------------------------------------- any order, the same tree

  lemma {:induction false} OnlyMover(moves: seq<Move>, m: Move, p: Path)
    requires m in moves && m.from <= p && Apart(moves)
    ensures Mover(moves, p) == Some(m)
  {
    var i :| 0 <= i < |moves| && moves[i] == m;
    if moves[0].from <= p {
      PrefixesOfOne(moves[0].from, m.from, p);
    } else {
      assert moves[1..][i - 1] == m;
      OnlyMover(moves[1..], m, p);
    }
  }

  /** The two lists hold the same moves. */
  ghost predicate SameMoves(moves: seq<Move>, shuffled: seq<Move>) {
    forall m :: m in moves <==> m in shuffled
  }

  lemma SameTargets(moves: seq<Move>, shuffled: seq<Move>, p: Path)
    requires SameMoves(moves, shuffled)
    requires Apart(moves)
    ensures Mover(shuffled, p) == Mover(moves, p)
  {
    hide Mover, Unrelated;
    MoverTakes(shuffled, p);
    MoverTakes(moves, p);
    if Mover(shuffled, p).Some? { OnlyMover(moves, Mover(shuffled, p).value, p); }
  }

  lemma ApartMembers(moves: seq<Move>, a: Move, b: Move)
    requires Apart(moves) && a in moves && b in moves && a != b
    ensures Unrelated(a.from, b.from) && Unrelated(a.to, b.to)
  {
  }

  lemma ShuffledPair(moves: seq<Move>, shuffled: seq<Move>, i: nat, j: nat)
    requires Apart(moves) && multiset(moves) == multiset(shuffled) && i < j < |shuffled|
    ensures Unrelated(shuffled[i].from, shuffled[j].from) && Unrelated(shuffled[i].to, shuffled[j].to)
  {
    hide Apart, Unrelated;
    var a, b := shuffled[i], shuffled[j];
    assert a in multiset(shuffled) && b in multiset(shuffled);
    if a == b {
      RepeatCountsTwice(shuffled, i, j);
      TwiceMeansTwoPlaces(moves, a);
      NotApartFromItself(moves, a);
    } else {
      ApartMembers(moves, a, b);
    }
  }

  lemma NotApartFromItself(moves: seq<Move>, m: Move)
    requires exists i, j :: 0 <= i < j < |moves| && moves[i] == moves[j] == m
    ensures !Apart(moves)
  {
  }

  lemma SameElements(moves: seq<Move>, shuffled: seq<Move>)
    requires multiset(moves) == multiset(shuffled)
    ensures SameMoves(moves, shuffled)
  {
    forall m ensures m in moves <==> m in shuffled {
      assert m in moves <==> m in multiset(moves);
    }
  }

  lemma ShuffledCompatible(tree: Tree, moves: seq<Move>, shuffled: seq<Move>, rewriter: Rewriter)
    requires Compatible(tree, moves, rewriter) && multiset(moves) == multiset(shuffled)
    ensures Compatible(tree, shuffled, rewriter)
  {
    hide Unrelated, Exists;
    forall i, j | 0 <= i < j < |shuffled|
      ensures Unrelated(shuffled[i].from, shuffled[j].from) && Unrelated(shuffled[i].to, shuffled[j].to)
    {
      ShuffledPair(moves, shuffled, i, j);
    }
    SameElements(moves, shuffled);
  }

  lemma RelocatedTwoWays(tree: Tree, moves: seq<Move>, shuffled: seq<Move>, a: Tree, b: Tree, rewriter: Rewriter)
    requires Relocated(tree, moves, a, rewriter) && Relocated(tree, shuffled, b, rewriter)
    requires forall p :: p in tree ==> Mover(moves, p) == Mover(shuffled, p)
    ensures a == b
  {
    hide Mover;
    forall p | p in tree
      ensures Target(moves, p) == Target(shuffled, p)
      ensures NewText(moves, p, tree[p], rewriter) == NewText(shuffled, p, tree[p], rewriter)
    {
    }
    hide Target, NewText;
    assert a.Keys == b.Keys;
  }

  /** Compatible moves succeed in every order, and every order leaves the same tree. */
  lemma AnyOrder(tree: Tree, moves: seq<Move>, shuffled: seq<Move>, force: bool, rewriter: Rewriter)
    requires Compatible(tree, moves, rewriter) && multiset(moves) == multiset(shuffled)
    ensures ApplyAll(tree, moves, force, rewriter).ok
    ensures ApplyAll(tree, shuffled, force, rewriter) == ApplyAll(tree, moves, force, rewriter)
  {
    hide Relocated, Unrelated, Exists, ApplyAll;
    ShuffledCompatible(tree, moves, shuffled, rewriter);
    MovesRelocate(tree, moves, force, rewriter);
    MovesRelocate(tree, shuffled, force, rewriter);
    SameElements(moves, shuffled);
    forall p | p in tree ensures Mover(moves, p) == Mover(shuffled, p) { SameTargets(moves, shuffled, p); }
    RelocatedTwoWays(tree, moves, shuffled, ApplyAll(tree, moves, force, rewriter).tree,
                     ApplyAll(tree, shuffled, force, rewriter).tree, rewriter);
  }

  // ---------------------------------------------------------------- nothing lost, nothing twice

  lemma {:induction false} InjectiveImageSize(domain: set<Path>, image: set<Path>, f: Path -> Path)
    requires forall p :: p in domain ==> f(p) in image
    requires forall q :: q in image ==> exists p :: p in domain && f(p) == q
    requires forall p, q :: p in domain && q in domain && f(p) == f(q) ==> p == q
    ensures |domain| == |image|
    decreases |domain|
  {
    if domain == {} {
      assert image == {};
    } else {
      var p :| p in domain;
      InjectiveImageSize(domain - {p}, image - {f(p)}, f);
    }
  }

  lemma RelocatedKeepsSize(before: Tree, moves: seq<Move>, after: Tree, rewriter: Rewriter)
    requires Relocated(before, moves, after, rewriter)
    ensures |after| == |before|
  {
    hide Target, NewText;
    InjectiveImageSize(before.Keys, after.Keys, p => Target(moves, p));
  }

  // ---------------------------------------------------------------- two moves of one source

  lemma MovedAway(tree: Tree, m: Move, force: bool, rewriter: Rewriter)
    requires ApplyMove(tree, m, force, rewriter).ok && Unrelated(m.from, m.to) && !m.rewriteConfig
    ensures !Exists(ApplyMove(tree, m, force, rewriter).tree, m.from)
  {
  }

  lemma StaysAway(tree: Tree, m: Move, force: bool, rewriter: Rewriter, path: Path)
    requires !Exists(tree, path) && Unrelated(path, m.to)
    ensures !Exists(ApplyMove(tree, m, force, rewriter).tree, path)
  {
  }

  lemma {:induction false} AbsentSourceFails(tree: Tree, moves: seq<Move>, force: bool, rewriter: Rewriter, j: nat)
    requires j < |moves| && !Exists(tree, moves[j].from)
    requires forall k :: 0 <= k < |moves| ==> Unrelated(moves[j].from, moves[k].to)
    ensures !ApplyAll(tree, moves, force, rewriter).ok
    decreases j
  {
    hide Unrelated, Rename;
    var first := ApplyMove(tree, moves[0], force, rewriter);
    if j > 0 && first.ok {
      StaysAway(tree, moves[0], force, rewriter, moves[j].from);
      AbsentSourceFails(first.tree, moves[1..], force, rewriter, j - 1);
    }
  }

  /** A plan that names one source twice cannot run to its end, whatever the order. */
  lemma {:induction false} RepeatedSourceFails(tree: Tree, moves: seq<Move>, force: bool, rewriter: Rewriter, i: nat,
                                               j: nat)
    requires i < j < |moves| && moves[i].from == moves[j].from && !moves[i].rewriteConfig
    requires forall k :: 0 <= k < |moves| ==> Unrelated(moves[j].from, moves[k].to)
    ensures !ApplyAll(tree, moves, force, rewriter).ok
    decreases i
  {
    hide Unrelated, Rename, ApplyMove;
    var first := ApplyMove(tree, moves[0], force, rewriter);
    if first.ok {
      if i == 0 {
        MovedAway(tree, moves[0], force, rewriter);
        AbsentSourceFails(first.tree, moves[1..], force, rewriter, j - 1);
      } else {
        RepeatedSourceFails(first.tree, moves[1..], force, rewriter, i - 1, j - 1);
      }
    }
  }

  lemma BlockerStays(tree: Tree, m: Move, force: bool, rewriter: Rewriter, p: Path, to: Path)
    requires p in tree && p < to && Unrelated(m.from, to) && Unrelated(m.to, to)
    ensures p in ApplyMove(tree, m, force, rewriter).tree
  {
  }

  /** A file where a directory is needed stays there, and stops the move that needs it. */
  lemma {:induction false} BlockedMoveFails(tree: Tree, moves: seq<Move>, force: bool, rewriter: Rewriter, i: nat,
                                            p: Path)
    requires i < |moves| && p in tree && p < moves[i].to
    requires forall b :: b in moves ==>
      Unrelated(b.from, moves[i].to) && (b.to == moves[i].to || Unrelated(b.to, moves[i].to))
    ensures !ApplyAll(tree, moves, force, rewriter).ok
    decreases i
  {
    hide Unrelated, PutInPlace;
    assert moves[0] in moves;
    if moves[0].to != moves[i].to {
      BlockerStays(tree, moves[0], force, rewriter, p, moves[i].to);
      BlockedMoveFails(ApplyMove(tree, moves[0], force, rewriter).tree, moves[1..], force, rewriter, i - 1, p);
    }
  }

  lemma {:induction false} UnreadableConfigFails(tree: Tree, moves: seq<Move>, force: bool, rewriter: Rewriter, i: nat)
    requires i < |moves| && moves[i].rewriteConfig
    requires moves[i].from in tree ==> rewriter(moves[i].from, tree[moves[i].from]).None?
    requires forall b :: b in moves ==> Unrelated(moves[i].from, b.to)
    ensures !ApplyAll(tree, moves, force, rewriter).ok
    decreases i
  {
    hide Unrelated, PutInPlace, ApplyMove;
    assert moves[0] in moves && moves[i] in moves;
    NoNewText(tree, moves[0], force, rewriter, moves[i].from);
    if i == 0 {
      UnreadableFails(tree, moves[0], force, rewriter);
    } else {
      UnreadableConfigFails(ApplyMove(tree, moves[0], force, rewriter).tree, moves[1..], force, rewriter, i - 1);
    }
  }

  lemma UnreadableFails(tree: Tree, m: Move, force: bool, rewriter: Rewriter)
    requires m.rewriteConfig && (m.from in tree ==> rewriter(m.from, tree[m.from]).None?)
    ensures !ApplyMove(tree, m, force, rewriter).ok
  {
  }

  /** A move writes only at or below its destination. */
  lemma NoNewText(tree: Tree, m: Move, force: bool, rewriter: Rewriter, path: Path)
    requires Unrelated(path, m.to)
    ensures var next := ApplyMove(tree, m, force, rewriter).tree;
      path in next ==> path in tree && next[path] == tree[path]
  {
  }
}
