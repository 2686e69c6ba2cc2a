/** Facts about sequences that several components share. */
module Sequences {

  ghost predicate NoDuplicates<T>(s: seq<T>) {
    forall i, j :: 0 <= i < j < |s| ==> s[i] != s[j]
  }

  lemma NoDuplicatesConcat<T>(a: seq<T>, b: seq<T>)
    requires NoDuplicates(a) && NoDuplicates(b)
    requires forall x | x in a :: x !in b
    ensures NoDuplicates(a + b)
  {
    forall i, j | 0 <= i < j < |a + b|
      ensures (a + b)[i] != (a + b)[j]
    {
      if i < |a| <= j {
        assert a[i] in a;
      }
    }
  }

  lemma {:induction false} CountOfDistinct<T>(s: seq<T>, x: T)
    requires NoDuplicates(s)
    ensures multiset(s)[x] == if x in s then 1 else 0
  {
    if s != [] {
      var n := |s| - 1;
      CountOfDistinct(s[..n], x);
      assert s == s[..n] + [s[n]];
      assert s[n] !in s[..n];
    }
  }

  function SumOf<T>(w: T -> int, s: seq<T>): int {
    if s == [] then 0 else SumOf(w, s[..|s| - 1]) + w(s[|s| - 1])
  }

  lemma SumOfAppend<T>(w: T -> int, s: seq<T>, e: T)
    ensures SumOf(w, s + [e]) == SumOf(w, s) + w(e)
  {
    assert (s + [e])[..|s|] == s;
  }

  lemma {:induction false} SumOfConcat<T>(w: T -> int, a: seq<T>, b: seq<T>)
    ensures SumOf(w, a + b) == SumOf(w, a) + SumOf(w, b)
  {
    if b == [] {
      assert a + b == a;
    } else {
      var n := |b| - 1;
      SumOfConcat(w, a, b[..n]);
      assert (a + b)[..|a| + n] == a + b[..n];
    }
  }
}
