/** Sorting by an integer key, where elements with equal keys stay in their order. */
module StableSort {
  import opened Sequences

  function Insert<T>(key: T -> int, s: seq<T>, e: T): (r: seq<T>)
    ensures |r| == |s| + 1
  {
    if s == [] || key(s[|s| - 1]) <= key(e) then s + [e]
    else Insert(key, s[..|s| - 1], e) + [s[|s| - 1]]
  }

  function Sort<T>(key: T -> int, s: seq<T>): (r: seq<T>)
    ensures |r| == |s|
  {
    if s == [] then [] else Insert(key, Sort(key, s[..|s| - 1]), s[|s| - 1])
  }

  ghost predicate Ordered<T>(key: T -> int, s: seq<T>) {
    forall i, j :: 0 <= i < j < |s| ==> key(s[i]) <= key(s[j])
  }

  ghost predicate StrictlyOrdered<T>(key: T -> int, s: seq<T>) {
    forall i, j :: 0 <= i < j < |s| ==> key(s[i]) < key(s[j])
  }

  ghost predicate DistinctKeys<T>(key: T -> int, s: seq<T>) {
    forall i, j :: 0 <= i < j < |s| ==> key(s[i]) != key(s[j])
  }

  /** Insertion puts an element behind everything whose key is not greater. */
  lemma {:induction false} InsertPlace<T>(key: T -> int, s: seq<T>, e: T) returns (k: nat)
    ensures k <= |s| && Insert(key, s, e) == s[..k] + [e] + s[k..]
    ensures k > 0 ==> key(s[k - 1]) <= key(e)
    ensures forall i :: k <= i < |s| ==> key(e) < key(s[i])
  {
    var n := |s| - 1;
    if s == [] || key(s[n]) <= key(e) {
      k := |s|;
    } else {
      k := InsertPlace(key, s[..n], e);
      assert s[..n][..k] == s[..k];
      assert s[k..] == s[..n][k..] + [s[n]];
      assert forall i :: k <= i < n ==> s[i] == s[..n][i];
    }
  }

  lemma {:induction false} InsertMultiset<T>(key: T -> int, s: seq<T>, e: T)
    ensures multiset(Insert(key, s, e)) == multiset(s) + multiset{e}
  {
    if s != [] && key(e) < key(s[|s| - 1]) {
      InsertMultiset(key, s[..|s| - 1], e);
      assert s == s[..|s| - 1] + [s[|s| - 1]];
    }
  }

  lemma InsertOrdered<T>(key: T -> int, s: seq<T>, e: T)
    requires Ordered(key, s)
    ensures Ordered(key, Insert(key, s, e))
  {
    var k := InsertPlace(key, s, e);
    hide Insert;
    forall i | 0 <= i < k ensures key(s[i]) <= key(e) {
      assert i < k - 1 ==> key(s[i]) <= key(s[k - 1]);
    }
  }

  lemma {:induction false} InsertStrict<T>(key: T -> int, s: seq<T>, e: T)
    requires StrictlyOrdered(key, s)
    requires forall i :: 0 <= i < |s| ==> key(s[i]) != key(e)
    ensures StrictlyOrdered(key, Insert(key, s, e))
  {
    var k := InsertPlace(key, s, e);
    hide Insert;
    forall i | 0 <= i < k ensures key(s[i]) < key(e) {
      assert i < k - 1 ==> key(s[i]) < key(s[k - 1]);
    }
  }

  /** Sorting permutes the elements and orders them by key. */
  lemma {:induction false} SortIsOrdered<T>(key: T -> int, s: seq<T>)
    ensures multiset(Sort(key, s)) == multiset(s)
    ensures Ordered(key, Sort(key, s))
  {
    if s != [] {
      var n := |s| - 1;
      SortIsOrdered(key, s[..n]);
      InsertMultiset(key, Sort(key, s[..n]), s[n]);
      InsertOrdered(key, Sort(key, s[..n]), s[n]);
      hide Insert;
      assert s == s[..n] + [s[n]];
    }
  }

  /** Elements already in order are left as they are, whatever ties there are among them. */
  lemma {:induction false} SortOfOrdered<T>(key: T -> int, s: seq<T>)
    requires Ordered(key, s)
    ensures Sort(key, s) == s
  {
    if s != [] {
      SortOfOrdered(key, s[..|s| - 1]);
    }
  }

  lemma MemberAt<T>(s: seq<T>, e: T) returns (i: nat)
    requires e in multiset(s)
    ensures i < |s| && s[i] == e
  {
    i :| 0 <= i < |s| && s[i] == e;
  }

  lemma SameLast<T>(key: T -> int, a: seq<T>, b: seq<T>)
    requires multiset(a) == multiset(b) && a != [] && |a| == |b|
    requires StrictlyOrdered(key, a) && Ordered(key, b)
    ensures a[|a| - 1] == b[|a| - 1]
  {
    var n := |a| - 1;
    assert a[n] in multiset(a) && b[n] in multiset(b);
    var i := MemberAt(b, a[n]);
    var j := MemberAt(a, b[n]);
    assert key(b[i]) <= key(b[n]);
    assert key(a[j]) <= key(a[n]);
  }

  lemma WithoutLast<T>(s: seq<T>)
    requires s != []
    ensures multiset(s[..|s| - 1]) == multiset(s) - multiset{s[|s| - 1]}
  {
    assert s == s[..|s| - 1] + [s[|s| - 1]];
  }

  lemma SameLength<T>(a: seq<T>, b: seq<T>)
    requires multiset(a) == multiset(b)
    ensures |a| == |b|
  {
    assert |a| == |multiset(a)| == |multiset(b)| == |b|;
  }

  /** A strictly ordered arrangement of some elements is their only ordered arrangement. */
  lemma {:induction false} OrderedIsUnique<T>(key: T -> int, a: seq<T>, b: seq<T>)
    requires multiset(a) == multiset(b)
    requires StrictlyOrdered(key, a) && Ordered(key, b)
    ensures a == b
  {
    SameLength(a, b);
    if a != [] {
      var n := |a| - 1;
      SameLast(key, a, b);
      assert multiset(a[..n]) == multiset(b[..n]) by {
        WithoutLast(a);
        WithoutLast(b);
      }
      OrderedIsUnique(key, a[..n], b[..n]);
      assert a == a[..n] + [a[n]] && b == b[..n] + [b[n]];
    }
  }

  lemma SortStep<T>(key: T -> int, s: seq<T>)
    requires s != []
    ensures Sort(key, s) == Insert(key, Sort(key, s[..|s| - 1]), s[|s| - 1])
  {
  }

  lemma {:induction false} SortedStrictly<T>(key: T -> int, s: seq<T>)
    requires DistinctKeys(key, s)
    ensures StrictlyOrdered(key, Sort(key, s))
  {
    if s != [] {
      var n := |s| - 1;
      SortedStrictly(key, s[..n]);
      var before := Sort(key, s[..n]);
      assert multiset(before) == multiset(s[..n]) by { SortIsOrdered(key, s[..n]); }
      SortStep(key, s);
      hide Sort;
      forall i | 0 <= i < |before| ensures key(before[i]) != key(s[n]) {
        assert before[i] in multiset(before);
        var k := MemberAt(s[..n], before[i]);
      }
      InsertStrict(key, before, s[n]);
    }
  }

  /** With distinct keys, the sorted list does not depend on the order in which the elements are listed. */
  lemma SortForgetsListing<T>(key: T -> int, a: seq<T>, b: seq<T>)
    requires multiset(a) == multiset(b) && DistinctKeys(key, a)
    ensures Sort(key, a) == Sort(key, b)
  {
    SortIsOrdered(key, a);
    SortIsOrdered(key, b);
    SortedStrictly(key, a);
    OrderedIsUnique(key, Sort(key, a), Sort(key, b));
  }

  lemma {:induction false} SumOfInsert<T>(key: T -> int, w: T -> int, s: seq<T>, e: T)
    ensures SumOf(w, Insert(key, s, e)) == SumOf(w, s) + w(e)
  {
    if s == [] || key(s[|s| - 1]) <= key(e) {
      SumOfAppend(w, s, e);
    } else {
      SumOfInsert(key, w, s[..|s| - 1], e);
      SumOfAppend(w, Insert(key, s[..|s| - 1], e), s[|s| - 1]);
    }
  }

  /** Sorting does not change a sum. */
  lemma {:induction false} SumOfSort<T>(key: T -> int, w: T -> int, s: seq<T>)
    ensures SumOf(w, Sort(key, s)) == SumOf(w, s)
  {
    if s != [] {
      SumOfSort(key, w, s[..|s| - 1]);
      SumOfInsert(key, w, Sort(key, s[..|s| - 1]), s[|s| - 1]);
    }
  }

  // ----- ties

  /** The elements that have a key, in their order. */
  function WithKey<T>(key: T -> int, s: seq<T>, k: int): seq<T> {
    if s == [] then [] else WithKey(key, s[..|s| - 1], k) + if key(s[|s| - 1]) == k then [s[|s| - 1]] else []
  }

  lemma {:induction false} WithKeyConcat<T>(key: T -> int, a: seq<T>, b: seq<T>, k: int)
    ensures WithKey(key, a + b, k) == WithKey(key, a, k) + WithKey(key, b, k)
  {
    if b == [] {
      assert a + b == a;
    } else {
      WithKeyConcat(key, a, b[..|b| - 1], k);
      assert (a + b)[..|a + b| - 1] == a + b[..|b| - 1];
    }
  }

  lemma {:induction false} WithoutKey<T>(key: T -> int, s: seq<T>, k: int)
    requires forall i :: 0 <= i < |s| ==> key(s[i]) != k
    ensures WithKey(key, s, k) == []
  {
    if s != [] {
      WithoutKey(key, s[..|s| - 1], k);
    }
  }

  lemma InsertKeepsTies<T>(key: T -> int, s: seq<T>, e: T, k: int)
    ensures WithKey(key, Insert(key, s, e), k) == WithKey(key, s, k) + if key(e) == k then [e] else []
  {
    var p := InsertPlace(key, s, e);
    WithKeyConcat(key, s[..p], s[p..], k);
    WithKeyConcat(key, s[..p], [e], k);
    WithKeyConcat(key, s[..p] + [e], s[p..], k);
    assert s[..p] + s[p..] == s;
    assert [e][..0] == [];
    if key(e) == k {
      WithoutKey(key, s[p..], k);
    }
  }

  /** Sorting leaves elements with equal keys in their order. */
  lemma {:induction false} SortKeepsTies<T>(key: T -> int, s: seq<T>, k: int)
    ensures WithKey(key, Sort(key, s), k) == WithKey(key, s, k)
  {
    if s != [] {
      SortKeepsTies(key, s[..|s| - 1], k);
      InsertKeepsTies(key, Sort(key, s[..|s| - 1]), s[|s| - 1], k);
    }
  }
}
