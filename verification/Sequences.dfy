/** Lists without repetition. */
module Sequences {

  predicate Distinct<T(==)>(s: seq<T>) {
    forall i, j :: 0 <= i < j < |s| ==> s[i] != s[j]
  }

  lemma DistinctConcat<T>(a: seq<T>, b: seq<T>)
    requires Distinct(a) && Distinct(b) && forall x :: x in a ==> x !in b
    ensures Distinct(a + b)
  {
    forall i, j | 0 <= i < j < |a + b| ensures (a + b)[i] != (a + b)[j] {
      if i < |a| <= j {
        assert a[i] in a && b[j - |a|] in b;
      }
    }
  }

  lemma RepeatCountsTwice<T>(s: seq<T>, i: nat, j: nat)
    requires i < j < |s| && s[i] == s[j]
    ensures multiset(s)[s[i]] >= 2
  {
    assert s == s[..j] + [s[j]] + s[j + 1..];
    assert s[..j][i] == s[i];
  }

  lemma {:induction false} TwiceMeansTwoPlaces<T>(s: seq<T>, m: T)
    requires multiset(s)[m] >= 2
    ensures exists i, j :: 0 <= i < j < |s| && s[i] == s[j] == m
  {
    var rest := s[1..];
    assert s == [s[0]] + rest;
    if s[0] == m {
      assert m in rest;
      var j :| 0 <= j < |rest| && rest[j] == m;
      assert s[j + 1] == m;
    } else {
      TwiceMeansTwoPlaces(rest, m);
      var i, j :| 0 <= i < j < |rest| && rest[i] == rest[j] == m;
      assert s[i + 1] == s[j + 1] == m;
    }
  }

  lemma DistinctShuffled<T>(s: seq<T>, shuffled: seq<T>)
    requires Distinct(s) && multiset(s) == multiset(shuffled)
    ensures Distinct(shuffled)
  {
    forall i, j | 0 <= i < j < |shuffled| ensures shuffled[i] != shuffled[j] {
      if shuffled[i] == shuffled[j] {
        RepeatCountsTwice(shuffled, i, j);
        TwiceMeansTwoPlaces(s, shuffled[i]);
      }
    }
  }
}
