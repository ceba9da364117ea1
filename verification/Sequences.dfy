/** Repetition and permutation of sequences. */
module Sequences {

  ghost predicate DistinctRange<T>(s: seq<T>) {
    forall i, j :: 0 <= i < j < |s| ==> s[i] != s[j]
  }

  lemma RepeatCounts<T>(s: seq<T>, i: nat, j: nat)
    requires i < j < |s| && s[i] == s[j]
    ensures multiset(s)[s[i]] >= 2
  {
    assert s == s[..j] + [s[j]] + s[j + 1..];
    assert s[..j][i] == s[i];
    assert s[i] in multiset(s[..j]);
  }

  lemma {:induction false} NoRepeatCounts<T>(s: seq<T>, x: T)
    requires DistinctRange(s)
    ensures multiset(s)[x] <= 1
  {
    if s != [] {
      var n := |s| - 1;
      NoRepeatCounts(s[..n], x);
      assert s == s[..n] + [s[n]];
      if x == s[n] {
        assert x !in s[..n];
        assert multiset(s[..n])[x] == 0;
      }
    }
  }

  /** A permutation of a sequence without repetition has none either. */
  lemma PermutedDistinct<T>(s: seq<T>, t: seq<T>)
    requires DistinctRange(s) && multiset(t) == multiset(s)
    ensures DistinctRange(t)
  {
    forall i, j | 0 <= i < j < |t|
      ensures t[i] != t[j]
    {
      if t[i] == t[j] {
        RepeatCounts(t, i, j);
        NoRepeatCounts(s, t[i]);
        assert false;
      }
    }
  }

  lemma PermutedMembers<T>(s: seq<T>, t: seq<T>)
    requires multiset(t) == multiset(s)
    ensures forall x :: x in t <==> x in s
  {
    forall x
      ensures x in t <==> x in s
    {
      assert x in multiset(t) <==> x in multiset(s);
    }
  }
}
