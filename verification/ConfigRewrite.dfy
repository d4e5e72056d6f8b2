/**
 * Rewriting a legacy cluster config in place (cmd/cluster_migrate_layout.go): nested maps live in a
 * store and hold references to each other, so that a write through one of them is seen by all holders.
 */
module ConfigRewrite {
  import opened Paths
  import opened Text

  type Ref = nat

  /** A value in a map: null, something that is no map (a string, a number, a list), or another map. */
  datatype Cell = Nil | Scalar(text: string) | Nested(ref: Ref)

  type Store = map<Ref, map<string, Cell>>

  /** What a reader of the document finds at a path. */
  datatype Kind = Absent | Null | Leaf(text: string) | Map

  /** The references stay inside the store, and no map is held twice: a decoded document is a tree. */
  ghost predicate Wf(store: Store, root: Ref) {
    && root in store
    && (forall a, k :: Holds(store, a, k) ==> store[a][k].ref in store && store[a][k].ref != root)
    && (forall a, k, b, l :: Holds(store, a, k) && Holds(store, b, l) && store[a][k] == store[b][l] ==>
          a == b && k == l)
  }

  predicate Holds(store: Store, a: Ref, k: string) {
    a in store && k in store[a] && store[a][k].Nested?
  }

  /** The map at a path, if the path leads through maps only. */
  function Reach(store: Store, root: Ref, path: Path): Option<Ref>
    decreases |path|
  {
    if path == [] then Some(root)
    else
      Step(store, Reach(store, root, path[..|path| - 1]), path[|path| - 1])
  }

  function Step(store: Store, up: Option<Ref>, k: string): Option<Ref> {
    if up.Some? && Holds(store, up.value, k) then Some(store[up.value][k].ref) else None
  }

  lemma ReachSnoc(store: Store, root: Ref, path: Path, k: string)
    ensures Reach(store, root, path + [k]) == Step(store, Reach(store, root, path), k)
  {
  }

  function KindOf(cell: Cell): Kind {
    match cell
    case Nil => Null
    case Scalar(text) => Leaf(text)
    case Nested(_) => Map
  }

  function View(store: Store, root: Ref, path: Path): Kind {
    if path == [] then Map
    else
      var up := Reach(store, root, path[..|path| - 1]);
      var k := path[|path| - 1];
      if up.Some? && up.value in store && k in store[up.value] then KindOf(store[up.value][k]) else Absent
  }

  lemma {:induction false} ReachInside(store: Store, root: Ref, path: Path)
    requires Wf(store, root)
    ensures Reach(store, root, path).Some? ==> Reach(store, root, path).value in store
    decreases |path|
  {
  }

  lemma {:induction false} UniquePath(store: Store, root: Ref, p: Path, q: Path)
    requires Wf(store, root) && Reach(store, root, p).Some? && Reach(store, root, p) == Reach(store, root, q)
    ensures p == q
    decreases |p| + |q|
  {
    if p != [] && q != [] {
      var a, b := Reach(store, root, p[..|p| - 1]).value, Reach(store, root, q[..|q| - 1]).value;
      var k, l := p[|p| - 1], q[|q| - 1];
      assert Holds(store, a, k) && Holds(store, b, l) && store[a][k] == store[b][l];
      UniquePath(store, root, p[..|p| - 1], q[..|q| - 1]);
      assert p == p[..|p| - 1] + [k] && q == q[..|q| - 1] + [l];
    }
  }

  // ---------------------------------------------------------------- one entry of one map

  function Put(store: Store, at: Ref, key: string, cell: Cell): Store
    requires at in store
  {
    store[at := store[at][key := cell]]
  }

  lemma {:induction false} ReachAfterPut(store: Store, root: Ref, up: Path, at: Ref, key: string, cell: Cell, q: Path)
    requires Wf(store, root) && at in store && Reach(store, root, up) == Some(at)
    requires cell.Nested? ==> cell.ref in store && store[cell.ref] == map[] && cell.ref != at
    ensures Reach(Put(store, at, key, cell), root, q) ==
      if !(up + [key] <= q) then Reach(store, root, q)
      else if cell.Nested? && q == up + [key] then Some(cell.ref) else None
    decreases |q|
  {
    hide Wf, Put, Step;
    if q == [] {
      EmptyReach(store, Put(store, at, key, cell), root);
    } else {
      var r, x := q[..|q| - 1], q[|q| - 1];
      assert q == r + [x];
      hide Reach;
      ReachSnoc(store, root, r, x);
      ReachSnoc(Put(store, at, key, cell), root, r, x);
      ReachAfterPut(store, root, up, at, key, cell, r);
      StepAfterPut(store, at, key, cell, Reach(store, root, r), x);
      PrefixOfSnoc(up + [key], r, x);
      if Reach(store, root, r) == Some(at) { UniquePath(store, root, r, up); }
    }
  }

  lemma EmptyReach(store: Store, other: Store, root: Ref)
    ensures Reach(store, root, []) == Some(root) == Reach(other, root, [])
  {
  }

  lemma StepAfterPut(store: Store, at: Ref, key: string, cell: Cell, up: Option<Ref>, x: string)
    requires at in store
    ensures Step(Put(store, at, key, cell), None, x) == None
    ensures up != Some(at) || x != key ==> Step(Put(store, at, key, cell), up, x) == Step(store, up, x)
    ensures Step(Put(store, at, key, cell), Some(at), key) == if cell.Nested? then Some(cell.ref) else None
    ensures cell.Nested? && cell.ref in store && store[cell.ref] == map[] && cell.ref != at ==>
      Step(Put(store, at, key, cell), Some(cell.ref), x) == None
  {
  }

  lemma PrefixOfSnoc(p: Path, r: Path, x: string)
    requires p != []
    ensures p <= r + [x] <==> p <= r || p == r + [x]
    ensures p == r + [x] ==> r == p[..|p| - 1] && x == p[|p| - 1]
    ensures p <= r ==> r + [x] != p
    ensures !(p <= p[..|p| - 1])
  {
  }

  lemma ViewAfterPut(store: Store, root: Ref, up: Path, at: Ref, key: string, cell: Cell, q: Path)
    requires Wf(store, root) && at in store && Reach(store, root, up) == Some(at)
    requires cell.Nested? ==> cell.ref in store && store[cell.ref] == map[] && cell.ref != at
    ensures View(Put(store, at, key, cell), root, q) ==
      if !(up + [key] <= q) then View(store, root, q) else if q == up + [key] then KindOf(cell) else Absent
  {
    hide Reach, Wf;
    if q != [] {
      var r, x := q[..|q| - 1], q[|q| - 1];
      assert q == r + [x];
      ReachAfterPut(store, root, up, at, key, cell, r);
      PrefixOfSnoc(up + [key], r, x);
      if Reach(store, root, r) == Some(at) { UniquePath(store, root, r, up); }
    }
  }

  ghost predicate NobodyHolds(store: Store, cell: Cell) {
    forall a, k :: Holds(store, a, k) ==> store[a][k] != cell
  }

  lemma PutKeepsWf(store: Store, root: Ref, at: Ref, key: string, cell: Cell)
    requires Wf(store, root) && at in store
    requires cell.Nested? ==> cell.ref in store && cell.ref != root
    requires cell.Nested? ==> NobodyHolds(store, cell)
    ensures Wf(Put(store, at, key, cell), root)
  {
    var next := Put(store, at, key, cell);
    forall a, k | Holds(next, a, k)
      ensures (a == at && k == key) || (Holds(store, a, k) && next[a][k] == store[a][k])
    {
    }
  }

  lemma FreshMap(store: Store, root: Ref, ref: Ref)
    requires Wf(store, root) && ref !in store
    ensures Wf(store[ref := map[]], root)
    ensures NobodyHolds(store[ref := map[]], Nested(ref))
  {
  }

  lemma {:induction false} FreshMapUnseen(store: Store, root: Ref, ref: Ref, q: Path)
    requires Wf(store, root) && ref !in store
    ensures Reach(store[ref := map[]], root, q) == Reach(store, root, q)
    ensures View(store[ref := map[]], root, q) == View(store, root, q)
    decreases |q|
  {
    hide Wf;
    if q != [] {
      var r := q[..|q| - 1];
      FreshMapUnseen(store, root, ref, r);
      ReachInside(store, root, r);
    }
  }

  lemma {:induction false} NothingBelowLeaf(store: Store, root: Ref, p: Path, q: Path)
    requires View(store, root, p) != Map && p < q
    ensures View(store, root, q) == Absent && Reach(store, root, q).None?
    decreases |q|
  {
    var r := q[..|q| - 1];
    if p == r {
      NotReached(store, root, p);
    } else {
      NothingBelowLeaf(store, root, p, r);
    }
  }

  lemma NotReached(store: Store, root: Ref, p: Path)
    ensures View(store, root, p) != Map ==> Reach(store, root, p).None?
  {
  }

  /** What a write at parts makes of the kind at q: maps above, the value, nothing below, the rest as it was. */
  function SetAt(kind: Kind, q: Path, parts: Path, value: string): Kind {
    if q == parts then Leaf(value)
    else if q <= parts then Map
    else if parts <= q then Absent
    else kind
  }

  lemma StepDownView(store: Store, root: Ref, up: Path, at: Ref, key: string, ref: Ref, q: Path)
    requires Wf(store, root) && ref !in store && Reach(store, root, up) == Some(at)
    requires at in store && !Holds(store, at, key)
    ensures View(Put(store[ref := map[]], at, key, Nested(ref)), root, q) ==
      if q == up + [key] then Map else View(store, root, q)
  {
    hide Wf;
    var wide := store[ref := map[]];
    FreshMap(store, root, ref);
    FreshMapUnseen(store, root, ref, up);
    FreshMapUnseen(store, root, ref, q);
    ViewAfterPut(wide, root, up, at, key, Nested(ref), q);
    if up + [key] < q {
      assert (up + [key])[..|up|] == up;
      NothingBelowLeaf(store, root, up + [key], q);
    }
  }

  /** One step down the path, after a missing or non-map entry has been replaced by an empty map. */
  lemma StepDown(store: Store, root: Ref, up: Path, at: Ref, key: string, ref: Ref)
    requires Wf(store, root) && ref !in store && Reach(store, root, up) == Some(at)
    requires at in store && !Holds(store, at, key)
    ensures var next := Put(store[ref := map[]], at, key, Nested(ref));
      && Wf(next, root) && next.Keys == store.Keys + {ref} && Reach(next, root, up + [key]) == Some(ref)
      && forall q :: View(next, root, q) == if q == up + [key] then Map else View(store, root, q)
  {
    hide Wf, Reach, View, NobodyHolds;
    var wide := store[ref := map[]];
    FreshMap(store, root, ref);
    FreshMapUnseen(store, root, ref, up);
    RootFacts(store, root);
    PutKeepsWf(wide, root, at, key, Nested(ref));
    ReachAfterPut(wide, root, up, at, key, Nested(ref), up + [key]);
    forall q
      ensures View(Put(wide, at, key, Nested(ref)), root, q) == if q == up + [key] then Map else View(store, root, q)
    {
      StepDownView(store, root, up, at, key, ref, q);
    }
  }

  lemma RootFacts(store: Store, root: Ref)
    requires Wf(store, root)
    ensures root in store && Reach(store, root, []) == Some(root) && View(store, root, []) == Map
  {
  }

  lemma StepAlong(store: Store, root: Ref, up: Path, at: Ref, key: string)
    requires Wf(store, root) && Reach(store, root, up) == Some(at) && Holds(store, at, key)
    ensures Reach(store, root, up + [key]) == Some(store[at][key].ref) && store[at][key].ref in store
    ensures View(store, root, up + [key]) == Map
  {
  }

  // ---------------------------------------------------------------- the writes of one config

  datatype ClusterPaths = ClusterPaths(gitOpsDir: string, sopsKeyPath: string, sshKeyPath: string)

  const LOCAL_DIR: Path := ["opencenter", "gitops", "repository", "local_dir"]
  const SOPS_AGE_KEY_FILE: Path := ["secrets", "sops_age_key_file"]
  const AGE_KEY_FILE: Path := ["secrets", "sops", "age_key_file"]
  const SSH_PRIVATE: Path := ["secrets", "ssh_key", "private"]
  const SSH_PUBLIC: Path := ["secrets", "ssh_key", "public"]
  const SSH_KEY_PATH: Path := ["opencenter", "infrastructure", "ssh", "key_path"]
  const AUTH_SSH: Path := ["opencenter", "gitops", "auth", "ssh"]
  const AUTH_PRIVATE: Path := ["opencenter", "gitops", "auth", "ssh", "private_key"]
  const AUTH_PUBLIC: Path := ["opencenter", "gitops", "auth", "ssh", "public_key"]

  datatype Write = Write(path: Path, value: string)

  function SixWrites(paths: ClusterPaths): seq<Write> {
    [Write(LOCAL_DIR, paths.gitOpsDir), Write(SOPS_AGE_KEY_FILE, paths.sopsKeyPath),
     Write(AGE_KEY_FILE, paths.sopsKeyPath), Write(SSH_PRIVATE, paths.sshKeyPath),
     Write(SSH_PUBLIC, paths.sshKeyPath + ".pub"), Write(SSH_KEY_PATH, paths.sshKeyPath)]
  }

  function Writes(paths: ClusterPaths, auth: bool): seq<Write> {
    SixWrites(paths) +
    if auth then [Write(AUTH_PRIVATE, paths.sshKeyPath), Write(AUTH_PUBLIC, paths.sshKeyPath + ".pub")] else []
  }

  /** hasNestedMigrationConfigValue: something other than null is there. */
  predicate Present(kind: Kind) {
    kind != Absent && kind != Null
  }

  function AfterWrites(kind: Kind, q: Path, writes: seq<Write>): Kind
    decreases |writes|
  {
    if writes == [] then kind
    else AfterWrites(SetAt(kind, q, writes[0].path, writes[0].value), q, writes[1..])
  }

  lemma {:induction false} AfterOneMore(kind: Kind, q: Path, writes: seq<Write>, w: Write)
    ensures AfterWrites(kind, q, writes + [w]) == SetAt(AfterWrites(kind, q, writes), q, w.path, w.value)
    decreases |writes|
  {
    hide SetAt;
    if writes != [] {
      assert (writes + [w])[1..] == writes[1..] + [w];
      AfterOneMore(SetAt(kind, q, writes[0].path, writes[0].value), q, writes[1..], w);
    }
  }

  lemma NoWrites()
    ensures forall kind: Kind, q: Path :: AfterWrites(kind, q, []) == kind
  {
  }

  lemma WritesAre(paths: ClusterPaths, auth: bool)
    ensures Writes(paths, true) ==
      SixWrites(paths) + [Write(AUTH_PRIVATE, paths.sshKeyPath)] + [Write(AUTH_PUBLIC, paths.sshKeyPath + ".pub")]
    ensures Writes(paths, false) == SixWrites(paths)
  {
  }

  lemma {:induction false} ElsewhereUntouched(kind: Kind, q: Path, writes: seq<Write>)
    requires forall i :: 0 <= i < |writes| ==> Unrelated(q, writes[i].path)
    ensures AfterWrites(kind, q, writes) == kind
    decreases |writes|
  {
    if writes != [] {
      assert Unrelated(q, writes[0].path);
      ElsewhereUntouched(kind, q, writes[1..]);
    }
  }

  /** The first six writes do not reach the SSH credentials of the Git repository. */
  lemma AuthUntouched(paths: ClusterPaths, kind: Kind)
    ensures AfterWrites(kind, AUTH_SSH, SixWrites(paths)) == kind
  {
    hide AfterWrites, Unrelated;
    DifferAt(AUTH_SSH, LOCAL_DIR, 2);
    DifferAt(AUTH_SSH, SOPS_AGE_KEY_FILE, 0);
    DifferAt(AUTH_SSH, AGE_KEY_FILE, 0);
    DifferAt(AUTH_SSH, SSH_PRIVATE, 0);
    DifferAt(AUTH_SSH, SSH_PUBLIC, 0);
    DifferAt(AUTH_SSH, SSH_KEY_PATH, 1);
    ElsewhereUntouched(kind, AUTH_SSH, SixWrites(paths));
  }

  ghost predicate PathsApart(writes: seq<Write>) {
    forall i, j :: 0 <= i < j < |writes| ==> Unrelated(writes[i].path, writes[j].path)
  }

  lemma WritesApart(paths: ClusterPaths, auth: bool)
    ensures PathsApart(Writes(paths, auth))
  {
    hide Unrelated;
    var writes := Writes(paths, auth);
    forall i, j | 0 <= i < j < |writes| ensures Unrelated(writes[i].path, writes[j].path) {
      KnownPathsUnrelated(writes[i].path, writes[j].path);
    }
  }

  lemma KnownPathsUnrelated(p: Path, q: Path)
    requires p != q
    requires p in [LOCAL_DIR, SOPS_AGE_KEY_FILE, AGE_KEY_FILE, SSH_PRIVATE, SSH_PUBLIC, SSH_KEY_PATH, AUTH_PRIVATE,
                   AUTH_PUBLIC]
    requires q in [LOCAL_DIR, SOPS_AGE_KEY_FILE, AGE_KEY_FILE, SSH_PRIVATE, SSH_PUBLIC, SSH_KEY_PATH, AUTH_PRIVATE,
                   AUTH_PUBLIC]
    ensures Unrelated(p, q)
  {
    hide Unrelated;
    if p[0] != q[0] { DifferAt(p, q, 0); }
    else if p[1] != q[1] { DifferAt(p, q, 1); }
    else if p[2] != q[2] { DifferAt(p, q, 2); }
    else { DifferAt(p, q, 4); }
  }

  /** Where q stands towards one write of writes that do not overlap decides what is found there. */
  lemma {:induction false} OneWriteDecides(kind: Kind, q: Path, writes: seq<Write>, i: nat)
    requires PathsApart(writes) && i < |writes| && !Unrelated(q, writes[i].path)
    ensures AfterWrites(kind, q, writes) ==
      if q == writes[i].path then Leaf(writes[i].value) else if q <= writes[i].path then Map else Absent
    decreases |writes|
  {
    hide AfterWrites;
    var w, rest := writes[0], writes[1..];
    var next := SetAt(kind, q, w.path, w.value);
    AfterFirst(kind, q, writes);
    if i > 0 {
      OneWriteDecides(next, q, rest, i - 1);
    } else if forall j :: 0 <= j < |rest| ==> Unrelated(q, rest[j].path) {
      ElsewhereUntouched(next, q, rest);
    } else {
      var j :| 0 <= j < |rest| && !Unrelated(q, rest[j].path);
      assert Unrelated(writes[0].path, writes[j + 1].path);
      AboveBoth(q, w.path, rest[j].path);
      OneWriteDecides(next, q, rest, j);
    }
  }

  lemma AfterFirst(kind: Kind, q: Path, writes: seq<Write>)
    requires writes != []
    ensures AfterWrites(kind, q, writes) == AfterWrites(SetAt(kind, q, writes[0].path, writes[0].value), q, writes[1..])
  {
  }

  /** A path in line with two diverging ones is above both. */
  lemma AboveBoth(q: Path, p: Path, r: Path)
    requires Unrelated(p, r) && !Unrelated(q, p) && !Unrelated(q, r)
    ensures q < p && q < r
  {
  }

  /** The document after the rewrite, path by path. */
  function Rewritten(view: Path -> Kind, paths: ClusterPaths): Path -> Kind {
    (q: Path) => AfterWrites(view(q), q, Writes(paths, Present(view(AUTH_SSH))))
  }

  /** Every value the rewrite sets is read back at its path. */
  lemma RewriteReadsBack(view: Path -> Kind, paths: ClusterPaths, w: Write)
    requires w in Writes(paths, Present(view(AUTH_SSH)))
    ensures Rewritten(view, paths)(w.path) == Leaf(w.value)
  {
    hide Writes, AfterWrites;
    var writes := Writes(paths, Present(view(AUTH_SSH)));
    WritesApart(paths, Present(view(AUTH_SSH)));
    var i :| 0 <= i < |writes| && writes[i] == w;
    OneWriteDecides(view(w.path), w.path, writes, i);
  }

  /** Every other path keeps what it had, unless it leads to a written one (a map) or through one (nothing). */
  lemma RewriteKeepsTheRest(view: Path -> Kind, paths: ClusterPaths, q: Path)
    ensures var writes := Writes(paths, Present(view(AUTH_SSH)));
      && ((forall w :: w in writes ==> Unrelated(q, w.path)) ==> Rewritten(view, paths)(q) == view(q))
      && ((exists w :: w in writes && q < w.path) ==> Rewritten(view, paths)(q) == Map)
      && ((exists w :: w in writes && w.path < q) ==> Rewritten(view, paths)(q) == Absent)
  {
    hide Writes, AfterWrites;
    var writes := Writes(paths, Present(view(AUTH_SSH)));
    WritesApart(paths, Present(view(AUTH_SSH)));
    if forall w :: w in writes ==> Unrelated(q, w.path) {
      ElsewhereUntouched(view(q), q, writes);
    }
    forall i | 0 <= i < |writes| && !Unrelated(q, writes[i].path)
      ensures Rewritten(view, paths)(q) ==
        if q == writes[i].path then Leaf(writes[i].value) else if q <= writes[i].path then Map else Absent
    {
      OneWriteDecides(view(q), q, writes, i);
    }
  }

  lemma RewriteKeepsAuth(view: Path -> Kind, paths: ClusterPaths)
    ensures Present(Rewritten(view, paths)(AUTH_SSH)) == Present(view(AUTH_SSH))
  {
    hide AfterWrites;
    if Present(view(AUTH_SSH)) {
      var w := Write(AUTH_PRIVATE, paths.sshKeyPath);
      assert w in Writes(paths, true) && AUTH_SSH < w.path;
      RewriteKeepsTheRest(view, paths, AUTH_SSH);
    } else {
      AuthUntouched(paths, view(AUTH_SSH));
      WritesAre(paths, false);
    }
  }

  /** Rewriting a rewritten config changes nothing. */
  lemma RewriteIsIdempotent(view: Path -> Kind, paths: ClusterPaths, q: Path)
    ensures Rewritten(Rewritten(view, paths), paths)(q) == Rewritten(view, paths)(q)
  {
    hide Writes, AfterWrites;
    RewriteKeepsAuth(view, paths);
    var writes := Writes(paths, Present(view(AUTH_SSH)));
    WritesApart(paths, Present(view(AUTH_SSH)));
    if i :| 0 <= i < |writes| && !Unrelated(q, writes[i].path) {
      OneWriteDecides(view(q), q, writes, i);
      OneWriteDecides(Rewritten(view, paths)(q), q, writes, i);
    } else {
      ElsewhereUntouched(view(q), q, writes);
      ElsewhereUntouched(Rewritten(view, paths)(q), q, writes);
    }
  }

  /** The eight values and where they are read back, and when the last two are written. */
  lemma ValuesReadBack(view: Path -> Kind, paths: ClusterPaths)
    ensures var now := Rewritten(view, paths);
      var before := view(["opencenter", "gitops", "auth", "ssh"]);
      var auth := before != Absent && before != Null;
      && now(["opencenter", "gitops", "repository", "local_dir"]) == Leaf(paths.gitOpsDir)
      && now(["secrets", "sops_age_key_file"]) == Leaf(paths.sopsKeyPath)
      && now(["secrets", "sops", "age_key_file"]) == Leaf(paths.sopsKeyPath)
      && now(["secrets", "ssh_key", "private"]) == Leaf(paths.sshKeyPath)
      && now(["secrets", "ssh_key", "public"]) == Leaf(paths.sshKeyPath + ".pub")
      && now(["opencenter", "infrastructure", "ssh", "key_path"]) == Leaf(paths.sshKeyPath)
      && (auth ==> now(["opencenter", "gitops", "auth", "ssh", "private_key"]) == Leaf(paths.sshKeyPath))
      && (auth ==> now(["opencenter", "gitops", "auth", "ssh", "public_key"]) == Leaf(paths.sshKeyPath + ".pub"))
      && (!auth ==> forall q :: ["opencenter", "gitops", "auth"] <= q ==> now(q) == view(q))
  {
    hide AfterWrites, Rewritten, Unrelated, SixWrites;
    var auth := Present(view(AUTH_SSH));
    SixAre(paths);
    var six, all := SixWrites(paths), Writes(paths, auth);
    forall i | 0 <= i < 6 ensures six[i] in all { assert all[i] == six[i]; }
    RewriteReadsBack(view, paths, six[0]);
    RewriteReadsBack(view, paths, six[1]);
    RewriteReadsBack(view, paths, six[2]);
    RewriteReadsBack(view, paths, six[3]);
    RewriteReadsBack(view, paths, six[4]);
    RewriteReadsBack(view, paths, six[5]);
    if auth {
      assert all[6] == Write(AUTH_PRIVATE, paths.sshKeyPath) && all[7] == Write(AUTH_PUBLIC, paths.sshKeyPath + ".pub");
      RewriteReadsBack(view, paths, all[6]);
      RewriteReadsBack(view, paths, all[7]);
    } else {
      forall q | ["opencenter", "gitops", "auth"] <= q ensures Rewritten(view, paths)(q) == view(q) {
        AuthAside(paths, q);
        RewriteKeepsTheRest(view, paths, q);
      }
    }
  }

  lemma SixAre(paths: ClusterPaths)
    ensures SixWrites(paths) ==
      [Write(LOCAL_DIR, paths.gitOpsDir), Write(SOPS_AGE_KEY_FILE, paths.sopsKeyPath),
       Write(AGE_KEY_FILE, paths.sopsKeyPath), Write(SSH_PRIVATE, paths.sshKeyPath),
       Write(SSH_PUBLIC, paths.sshKeyPath + ".pub"), Write(SSH_KEY_PATH, paths.sshKeyPath)]
  {
  }

  lemma AuthAside(paths: ClusterPaths, q: Path)
    requires ["opencenter", "gitops", "auth"] <= q
    ensures forall w :: w in Writes(paths, false) ==> Unrelated(q, w.path)
  {
    hide Unrelated;
    SixAre(paths);
    WritesAre(paths, false);
    DifferAt(q, LOCAL_DIR, 2);
    DifferAt(q, SOPS_AGE_KEY_FILE, 0);
    DifferAt(q, AGE_KEY_FILE, 0);
    DifferAt(q, SSH_PRIVATE, 0);
    DifferAt(q, SSH_PUBLIC, 0);
    DifferAt(q, SSH_KEY_PATH, 1);
  }

  class ConfigMap {
    const root: Ref
    var maps: Store
    /** no map has this reference or a later one */
    var unused: Ref

    ghost predicate Valid()
      reads this
    {
      Wf(maps, root) && forall r :: r in maps ==> r < unused
    }

    ghost function At(path: Path): Kind
      reads this
    {
      View(maps, root, path)
    }

    /** The empty document that a config without content becomes. */
    constructor ()
      ensures Valid() && forall q :: At(q) == if q == [] then Map else Absent
    {
      root := 0;
      maps := map[0 := map[]];
      unused := 1;
      new;
      forall q ensures At(q) == if q == [] then Map else Absent { EmptyDocument(maps, root, q); }
    }

    method SetNestedMigrationConfigValue(value: string, parts: Path)
      requires Valid()
      modifies this
      ensures Valid()
      ensures forall q :: At(q) == if parts == [] then old(At(q)) else SetAt(old(At(q)), q, parts, value)
    {
      hide Wf, Reach, View;
      if |parts| == 0 { return; }
      RootFacts(maps, root);
      var current := root;
      for i := 0 to |parts| - 1
        invariant Valid() && current in maps && Reach(maps, root, parts[..i]) == Some(current)
        invariant forall q :: At(q) == if q <= parts[..i] then Map else old(At(q))
      {
        current := Descend(current, parts[..i], parts[i]);
        assert parts[..i + 1] == parts[..i] + [parts[i]];
      }
      var up, key := parts[..|parts| - 1], parts[|parts| - 1];
      assert parts == up + [key];
      PutKeepsWf(maps, root, current, key, Scalar(value));
      forall q ensures View(Put(maps, current, key, Scalar(value)), root, q) == SetAt(old(At(q)), q, parts, value) {
        ViewAfterPut(maps, root, up, current, key, Scalar(value), q);
      }
      maps := maps[current := maps[current][key := Scalar(value)]];
    }

    /** One pass of the loop: the map below current, made if there is none. */
    method Descend(current: Ref, ghost up: Path, part: string) returns (next: Ref)
      requires Valid() && current in maps && Reach(maps, root, up) == Some(current)
      modifies this
      ensures Valid() && next in maps && Reach(maps, root, up + [part]) == Some(next)
      ensures forall q :: At(q) == if q == up + [part] then Map else old(At(q))
    {
      hide Wf, Reach, View;
      if part in maps[current] && maps[current][part].Nested? {
        StepAlong(maps, root, up, current, part);
        next := maps[current][part].ref;
        return;
      }
      next := unused;
      StepDown(maps, root, up, current, part, next);
      unused := unused + 1;
      maps := maps[next := map[]];
      maps := maps[current := maps[current][part := Nested(next)]];
    }

    method HasNestedMigrationConfigValue(parts: Path) returns (has: bool)
      requires Valid()
      ensures has <==> At(parts) != Absent && At(parts) != Null
    {
      var current := Nested(root);
      for i := 0 to |parts|
        invariant KindOf(current) == At(parts[..i]) || (current.Nil? && At(parts[..i]) == Absent)
        invariant current.Nested? ==> Reach(maps, root, parts[..i]) == Some(current.ref) && current.ref in maps
      {
        assert parts[..i + 1][..i] == parts[..i] && parts[..i + 1] <= parts;
        if !current.Nested? {
          NothingBelowLeaf(maps, root, parts[..i], parts);
          return false;
        }
        ReachSnoc(maps, root, parts[..i], parts[i]);
        assert parts[..i + 1] == parts[..i] + [parts[i]];
        ReachInside(maps, root, parts[..i + 1]);
        current := if parts[i] in maps[current.ref] then maps[current.ref][parts[i]] else Nil;
      }
      assert parts[..|parts|] == parts;
      has := !current.Nil?;
    }

    /** One more of a row of writes; was is the document before the row. */
    method Apply(w: Write, ghost was: Store, ghost done: seq<Write>) returns (ghost all: seq<Write>)
      requires Valid() && w.path != []
      requires forall q :: At(q) == AfterWrites(View(was, root, q), q, done)
      modifies this
      ensures Valid() && all == done + [w]
      ensures forall q :: At(q) == AfterWrites(View(was, root, q), q, all)
    {
      hide Wf, View, SetAt;
      all := done + [w];
      SetNestedMigrationConfigValue(w.value, w.path);
      forall q ensures At(q) == AfterWrites(View(was, root, q), q, done + [w]) {
        AfterOneMore(View(was, root, q), q, done, w);
      }
    }

    method RewriteLegacyClusterConfig(paths: ClusterPaths)
      requires Valid()
      modifies this
      ensures Valid()
      ensures forall q :: At(q) == AfterWrites(old(At(q)), q, Writes(paths, Present(old(At(AUTH_SSH)))))
    {
      hide Wf, View, SetAt, AfterWrites, Writes;
      ghost var was, done: seq<Write> := maps, [];
      NoWrites();
      done := Apply(Write(LOCAL_DIR, paths.gitOpsDir), was, done);
      done := Apply(Write(SOPS_AGE_KEY_FILE, paths.sopsKeyPath), was, done);
      done := Apply(Write(AGE_KEY_FILE, paths.sopsKeyPath), was, done);
      done := Apply(Write(SSH_PRIVATE, paths.sshKeyPath), was, done);
      done := Apply(Write(SSH_PUBLIC, paths.sshKeyPath + ".pub"), was, done);
      done := Apply(Write(SSH_KEY_PATH, paths.sshKeyPath), was, done);
      assert done == SixWrites(paths);
      AuthUntouched(paths, View(was, root, AUTH_SSH));
      var auth := HasNestedMigrationConfigValue(AUTH_SSH);
      if auth {
        done := Apply(Write(AUTH_PRIVATE, paths.sshKeyPath), was, done);
        done := Apply(Write(AUTH_PUBLIC, paths.sshKeyPath + ".pub"), was, done);
      }
      WritesAre(paths, auth);
    }
  }

  lemma EmptyDocument(store: Store, root: Ref, q: Path)
    requires store == map[root := map[]]
    ensures View(store, root, q) == if q == [] then Map else Absent
  {
  }
}
