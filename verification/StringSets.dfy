/** Comparing string lists as sets by sorting and joining them: equalStringSets in internal/cloud/compare.go. */
module StringSets {
  import opened Text

  /** Go's string order. */
  predicate Leq(a: string, b: string) {
    a == "" || (b != "" && (a[0] < b[0] || (a[0] == b[0] && Leq(a[1..], b[1..]))))
  }

  /** One text is a prefix of the other, or at the first difference it has the smaller character. */
  ghost predicate InOrder(a: string, b: string) {
    a <= b || exists k :: 0 <= k < |a| && k < |b| && a[..k] == b[..k] && a[k] < b[k]
  }

  lemma {:induction false} LeqIsInOrder(a: string, b: string)
    requires Leq(a, b)
    ensures InOrder(a, b)
  {
    if a != "" && a[0] == b[0] {
      var c, d := a[1..], b[1..];
      assert a == [a[0]] + c && b == [a[0]] + d;
      LeqIsInOrder(c, d);
      if !(c <= d) {
        var k :| 0 <= k < |c| && k < |d| && c[..k] == d[..k] && c[k] < d[k];
        assert a[..k + 1] == [a[0]] + c[..k] && b[..k + 1] == [a[0]] + d[..k];
      }
    } else if a != "" {
      assert a[..0] == b[..0];
    }
  }

  lemma {:induction false} LeqAfter(a: string, b: string, k: nat)
    requires k <= |a| && k <= |b| && a[..k] == b[..k]
    ensures Leq(a, b) <==> Leq(a[k..], b[k..])
  {
    if k == 0 {
      assert a[0..] == a && b[0..] == b;
    } else {
      assert a[0] == a[..k][0] == b[..k][0] == b[0];
      assert a[1..][..k - 1] == a[..k][1..] && b[1..][..k - 1] == b[..k][1..];
      LeqAfter(a[1..], b[1..], k - 1);
      assert a[1..][k - 1..] == a[k..] && b[1..][k - 1..] == b[k..];
    }
  }

  /** The order is the lexicographic one. */
  lemma LeqIsLexicographic(a: string, b: string)
    ensures Leq(a, b) <==> InOrder(a, b)
  {
    if Leq(a, b) { LeqIsInOrder(a, b); }
    if a <= b {
      assert b[..|a|] == a == a[..|a|];
      LeqAfter(a, b, |a|);
    } else if InOrder(a, b) {
      var k :| 0 <= k < |a| && k < |b| && a[..k] == b[..k] && a[k] < b[k];
      LeqAfter(a, b, k);
    }
  }

  lemma {:induction false} LeqTotal(a: string, b: string)
    ensures Leq(a, b) || Leq(b, a)
  {
    if a != "" && b != "" && a[0] == b[0] { LeqTotal(a[1..], b[1..]); }
  }

  lemma {:induction false} LeqAntisymmetric(a: string, b: string)
    requires Leq(a, b) && Leq(b, a)
    ensures a == b
  {
    if a != "" {
      LeqAntisymmetric(a[1..], b[1..]);
      assert a == [a[0]] + a[1..] && b == [b[0]] + b[1..];
    }
  }

  lemma {:induction false} LeqTransitive(a: string, b: string, c: string)
    requires Leq(a, b) && Leq(b, c)
    ensures Leq(a, c)
  {
    if a != "" && a[0] == b[0] == c[0] { LeqTransitive(a[1..], b[1..], c[1..]); }
  }

  predicate Sorted(xs: seq<string>) {
    forall i, j :: 0 <= i < j < |xs| ==> Leq(xs[i], xs[j])
  }

  function Insert(x: string, xs: seq<string>): (ys: seq<string>)
    requires Sorted(xs)
    ensures Sorted(ys) && multiset(ys) == multiset(xs) + multiset{x}
  {
    if xs == [] then [x]
    else
      assert xs == [xs[0]] + xs[1..];
      if Leq(x, xs[0]) then
        InsertFront(x, xs);
        [x] + xs
      else
        LeqTotal(x, xs[0]);
        var ys := Insert(x, xs[1..]);
        BoundedBelow(xs[0], x, xs[1..], ys);
        [xs[0]] + ys
  }

  lemma InsertFront(x: string, xs: seq<string>)
    requires Sorted(xs) && xs != [] && Leq(x, xs[0])
    ensures Sorted([x] + xs)
  {
    forall j | 0 <= j < |xs| ensures Leq(x, xs[j]) {
      if j > 0 { LeqTransitive(x, xs[0], xs[j]); }
    }
  }

  lemma BoundedBelow(low: string, x: string, xs: seq<string>, ys: seq<string>)
    requires Leq(low, x) && (forall y :: y in xs ==> Leq(low, y))
    requires multiset(ys) == multiset(xs) + multiset{x}
    ensures forall y :: y in ys ==> Leq(low, y)
  {
    forall y | y in ys ensures Leq(low, y) {
      assert y in multiset(ys);
    }
  }

  /** sort.Strings on a copy */
  function SortedCopy(xs: seq<string>): (ys: seq<string>)
    ensures Sorted(ys) && multiset(ys) == multiset(xs)
  {
    if xs == [] then []
    else
      assert xs == [xs[0]] + xs[1..];
      Insert(xs[0], SortedCopy(xs[1..]))
  }

  lemma SortedHead(xs: seq<string>, ys: seq<string>)
    requires Sorted(xs) && xs != [] && multiset(xs) == multiset(ys) && ys != []
    ensures Leq(xs[0], ys[0])
  {
    assert ys[0] in multiset(xs);
    var j :| 0 <= j < |xs| && xs[j] == ys[0];
    LeqReflexive(xs[0]);
  }

  lemma TailMultiset(xs: seq<string>)
    requires xs != []
    ensures multiset(xs[1..]) == multiset(xs) - multiset{xs[0]}
    ensures Sorted(xs) ==> Sorted(xs[1..])
  {
    assert xs == [xs[0]] + xs[1..];
  }

  /** A multiset has one sorted listing. */
  lemma {:induction false} SortedIsUnique(xs: seq<string>, ys: seq<string>)
    requires Sorted(xs) && Sorted(ys) && multiset(xs) == multiset(ys)
    ensures xs == ys
  {
    hide Leq, Sorted;
    assert |xs| == |multiset(xs)| == |multiset(ys)| == |ys|;
    if xs != [] {
      SortedHead(xs, ys);
      SortedHead(ys, xs);
      LeqAntisymmetric(xs[0], ys[0]);
      TailMultiset(xs);
      TailMultiset(ys);
      SortedIsUnique(xs[1..], ys[1..]);
      SameHeadAndTail(xs, ys);
    }
  }

  lemma SameHeadAndTail(xs: seq<string>, ys: seq<string>)
    requires xs != [] && ys != [] && xs[0] == ys[0] && xs[1..] == ys[1..]
    ensures xs == ys
  {
    assert xs == [xs[0]] + xs[1..] && ys == [ys[0]] + ys[1..];
  }

  lemma {:induction false} LeqReflexive(a: string)
    ensures Leq(a, a)
  {
    LeqTotal(a, a);
  }

  /** strings.Join with a NUL separator */
  function Join(xs: seq<string>): string {
    if xs == [] then "" else if |xs| == 1 then xs[0] else xs[0] + "\0" + Join(xs[1..])
  }

  function EqualStringSets(expected: seq<string>, actual: seq<string>): bool {
    Join(SortedCopy(expected)) == Join(SortedCopy(actual))
  }

  predicate NulFree(xs: seq<string>) {
    forall i :: 0 <= i < |xs| ==> '\0' !in xs[i]
  }

  function Rest(xs: seq<string>): (s: string)
    requires xs != []
    ensures Join(xs) == xs[0] + s && (s == "" || s[0] == '\0') && (s == "" <==> |xs| == 1)
  {
    if |xs| == 1 then "" else "\0" + Join(xs[1..])
  }

  lemma {:induction false} JoinInjective(xs: seq<string>, ys: seq<string>)
    requires NulFree(xs) && NulFree(ys) && xs != [] && ys != []
    requires Join(xs) == Join(ys)
    ensures xs == ys
  {
    FirstPiece('\0', xs[0], Rest(xs), ys[0], Rest(ys));
    assert xs == [xs[0]] + xs[1..] && ys == [ys[0]] + ys[1..];
    if |xs| > 1 {
      assert Rest(xs)[1..] == Join(xs[1..]) && Rest(ys)[1..] == Join(ys[1..]);
      JoinInjective(xs[1..], ys[1..]);
    }
  }

  lemma JoinEmpty(xs: seq<string>)
    requires NulFree(xs)
    ensures Join(xs) == "" <==> xs == [] || xs == [""]
  {
  }

  lemma SortedNulFree(xs: seq<string>)
    requires NulFree(xs)
    ensures NulFree(SortedCopy(xs))
  {
    var ys := SortedCopy(xs);
    forall i | 0 <= i < |ys| ensures '\0' !in ys[i] {
      assert ys[i] in multiset(xs);
    }
  }

  /** The one pair of different lists that join to the same text. */
  predicate EmptyAgainstBlank(xs: seq<string>, ys: seq<string>) {
    (xs == [] && ys == [""]) || (xs == [""] && ys == [])
  }

  /** For NUL-free strings the comparison is equality of multisets, with one exception. */
  lemma EqualStringSetsIsMultisetEquality(xs: seq<string>, ys: seq<string>)
    requires NulFree(xs) && NulFree(ys)
    ensures EqualStringSets(xs, ys) <==> multiset(xs) == multiset(ys) || EmptyAgainstBlank(xs, ys)
  {
    var us, vs := SortedCopy(xs), SortedCopy(ys);
    SortedNulFree(xs);
    SortedNulFree(ys);
    if multiset(xs) == multiset(ys) {
      SortedIsUnique(us, vs);
    } else if Join(us) == Join(vs) {
      if us != [] && vs != [] {
        JoinInjective(us, vs);
      } else {
        JoinEmpty(us);
        JoinEmpty(vs);
        Singleton(xs);
        Singleton(ys);
      }
    }
  }

  lemma Singleton(xs: seq<string>)
    ensures SortedCopy(xs) == [] <==> xs == []
    ensures SortedCopy(xs) == [""] ==> xs == [""]
  {
  }

  /** Whatever the strings, a list compares equal to every reordering of it. */
  lemma EqualToPermutation(xs: seq<string>, ys: seq<string>)
    requires multiset(xs) == multiset(ys)
    ensures EqualStringSets(xs, ys)
  {
    SortedIsUnique(SortedCopy(xs), SortedCopy(ys));
  }
}
