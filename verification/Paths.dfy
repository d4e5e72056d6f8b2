/** Paths as sequences of names, in a file tree or in nested maps. */
module Paths {
  type Path = seq<string>

  /** Neither path is at or below the other. */
  predicate Unrelated(p: Path, q: Path) {
    !(p <= q) && !(q <= p)
  }

  lemma PrefixesOfOne(p: Path, q: Path, r: Path)
    requires p <= r && q <= r
    ensures p <= q || q <= p
  {
  }

  lemma UnrelatedBelow(p: Path, q: Path, r: Path)
    requires Unrelated(p, q) && p <= r
    ensures Unrelated(r, q)
  {
  }

  lemma DifferAt(p: Path, q: Path, k: nat)
    requires k < |p| && k < |q| && p[k] != q[k]
    ensures Unrelated(p, q) && Unrelated(q, p)
  {
  }
}
