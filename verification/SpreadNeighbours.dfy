/** Whom the routes of a round join to an entity, and in which order. */
module SpreadNeighbours {
  import opened Sequences
  import opened SpreadRound
  import opened SpreadRoundFacts
  import opened SpreadRun

  /** Wherever y is listed, x was listed before. */
  ghost predicate Ahead<E>(s: seq<E>, x: E, y: E) {
    forall i :: 0 <= i < |s| && s[i] == y ==> x in s[..i]
  }

  // ----- order is kept when entities are prepared

  lemma AheadAppend<E>(s: seq<E>, t: seq<E>, x: E, y: E)
    requires Ahead(s, x, y)
    requires x in s || Ahead(t, x, y)
    ensures Ahead(s + t, x, y)
  {
    forall i | 0 <= i < |s + t| && (s + t)[i] == y ensures x in (s + t)[..i] {
      if i < |s| {
        assert (s + t)[..i] == s[..i];
      } else {
        assert (s + t)[..i] == s + t[..i - |s|];
        assert t[i - |s|] == y;
      }
    }
  }

  lemma AheadPrefix<E>(s: seq<E>, k: nat, x: E, y: E)
    requires Ahead(s, x, y) && k <= |s|
    ensures Ahead(s[..k], x, y)
    ensures y in s[..k] ==> x in s[..k]
  {
    forall i | 0 <= i < k && s[..k][i] == y ensures x in s[..k][..i] {
      assert s[..k][..i] == s[..i];
    }
    if y in s[..k] {
      var i :| 0 <= i < k && s[..k][i] == y;
      assert x in s[..k][..i];
    }
  }

  lemma {:induction false} AheadLive<E>(es: seq<E>, vol: map<E, int>, x: E, y: E)
    requires Ahead(es, x, y) && Volume(vol, x) != 0
    ensures Ahead(Live(es, vol), x, y)
  {
    if es != [] {
      var n := |es| - 1;
      AheadPrefix(es, n, x, y);
      AheadLive(es[..n], vol, x, y);
      LiveMembers(es[..n], vol);
      if Volume(vol, es[n]) != 0 {
        AheadAppend(Live(es[..n], vol), [es[n]], x, y);
      } else {
        assert Live(es, vol) == Live(es[..n], vol);
      }
    }
  }

  lemma {:induction false} AheadGrouped<E>(ids: E -> string, es: seq<E>, x: E, y: E)
    requires Ahead(es, x, y) && ids(x) == ids(y)
    ensures Ahead(Lookup(Grouped(ids, es), ids(x)), x, y)
  {
    if es != [] {
      var n := |es| - 1;
      var before := Lookup(Grouped(ids, es[..n]), ids(x));
      AheadPrefix(es, n, x, y);
      AheadGrouped(ids, es[..n], x, y);
      GroupedMembers(ids, es[..n], ids(x));
      if ids(es[n]) == ids(x) {
        AheadAppend(before, [es[n]], x, y);
        assert Lookup(Grouped(ids, es), ids(x)) == before + [es[n]];
      } else {
        assert Lookup(Grouped(ids, es), ids(x)) == before;
      }
    }
  }

  // ----- neighbours, part by part

  lemma NeighboursAppend<E>(r: seq<Route<E>>, last: Route<E>, e: E)
    ensures Neighbours(r + [last], e) ==
            Neighbours(r, e) + ((if last.0 == e then [last.1] else []) + (if last.1 == e then [last.0] else []))
  {
    assert (r + [last])[..|r|] == r;
  }

  lemma {:induction false} NeighboursConcat<E>(r: seq<Route<E>>, s: seq<Route<E>>, e: E)
    ensures Neighbours(r + s, e) == Neighbours(r, e) + Neighbours(s, e)
  {
    if s == [] {
      assert r + s == r;
    } else {
      hide Neighbours;
      var n := |s| - 1;
      NeighboursConcat(r, s[..n], e);
      NeighboursAppend(s[..n], s[n], e);
      NeighboursAppend(r + s[..n], s[n], e);
      assert s == s[..n] + [s[n]];
      assert r + s == (r + s[..n]) + [s[n]];
    }
  }

  lemma {:induction false} PairNeighbours<E>(first: E, others: seq<E>, e: E)
    requires first !in others
    ensures e == first ==> Neighbours(PairWith(first, others), e) == others
    ensures e != first && e !in others ==> Neighbours(PairWith(first, others), e) == []
    ensures e in others && NoDuplicates(others) ==> Neighbours(PairWith(first, others), e) == [first]
  {
    if others != [] {
      hide Neighbours;
      var n := |others| - 1;
      var before := Neighbours(PairWith(first, others[..n]), e);
      assert others == others[..n] + [others[n]] && first != others[n];
      PairNeighbours(first, others[..n], e);
      NeighboursAppend(PairWith(first, others[..n]), (first, others[n]), e);
      assert Neighbours(PairWith(first, others), e) ==
             before + if e == first then [others[n]] else if e == others[n] then [first] else [];
    }
  }

  /** In a complete pairing every second entity sees all first ones in order, and the other way round. */
  lemma {:induction false} CartesianNeighbours<E>(firsts: seq<E>, seconds: seq<E>, e: E)
    requires NoDuplicates(firsts) && NoDuplicates(seconds)
    requires forall f | f in firsts :: f !in seconds
    ensures e in firsts ==> Neighbours(Cartesian(firsts, seconds), e) == seconds
    ensures e in seconds ==> Neighbours(Cartesian(firsts, seconds), e) == firsts
    ensures e !in firsts && e !in seconds ==> Neighbours(Cartesian(firsts, seconds), e) == []
  {
    if firsts != [] {
      var n := |firsts| - 1;
      assert firsts == firsts[..n] + [firsts[n]];
      CartesianNeighbours(firsts[..n], seconds, e);
      PairNeighbours(firsts[n], seconds, e);
      NeighboursConcat(Cartesian(firsts[..n], seconds), PairWith(firsts[n], seconds), e);
      if e == firsts[n] {
        assert e !in firsts[..n];
      }
    }
  }

  /** What the routes of a priority group are built from. */
  ghost predicate GroupInput<E>(ids: E -> string, group: seq<Entry>, groups1: Groups<E>, groups2: Groups<E>) {
    && WellGrouped(ids, groups1) && WellGrouped(ids, groups2)
    && DistinctEntries(group)
    && (forall id, id' | id in groups1 && id' in groups2 ::
          forall i, j :: 0 <= i < |groups1[id]| && 0 <= j < |groups2[id']| ==> groups1[id][i] != groups2[id'][j])
  }

  lemma WellGroupedInput<E>(ids: E -> string, group: seq<Entry>, groups1: Groups<E>, groups2: Groups<E>)
    requires GroupInput(ids, group, groups1, groups2)
    ensures WellGrouped(ids, groups1)
    ensures forall i, j :: 0 <= i < j < |group| ==> group[i].id != group[j].id
  {
  }

  /** The block of routes that one entry contributes. */
  ghost function Block<E>(entry: Entry, groups1: Groups<E>, groups2: Groups<E>): seq<Route<E>> {
    Cartesian(Lookup(groups1, entry.id), Preferred(entry, groups2))
  }

  lemma PreferredOf<E>(ids: E -> string, group: seq<Entry>, groups1: Groups<E>, groups2: Groups<E>, k: nat)
    requires GroupInput(ids, group, groups1, groups2) && k < |group|
    ensures NoDuplicates(Preferred(group[k], groups2))
    ensures NoDuplicates(Lookup(groups1, group[k].id))
    ensures forall id, e | e in Preferred(group[k], groups2) :: e !in Lookup(groups1, id)
  {
    var preferences := group[k].preferences;
    var p := FirstUsableIdsIsFirst(preferences, groups2);
    var chosen := FirstUsableIds(preferences, groups2);
    EntitiesOfDistinct(ids, chosen, groups2);
    EntitiesOfMembers(chosen, groups2);
    forall id, e | e in Preferred(group[k], groups2) ensures e !in Lookup(groups1, id) {
      assert InGroup(chosen, groups2, e);
      var q :| 0 <= q < |chosen| && e in Lookup(groups2, chosen[q]);
      var j :| 0 <= j < |Lookup(groups2, chosen[q])| && Lookup(groups2, chosen[q])[j] == e;
      assert groups2[chosen[q]][j] == e;
      assert id in groups1 ==> forall i :: 0 <= i < |groups1[id]| ==> groups1[id][i] != groups2[chosen[q]][j];
    }
  }

  lemma SplitLast<E>(ids: E -> string, group: seq<Entry>, groups1: Groups<E>, groups2: Groups<E>, e: E)
    requires GroupInput(ids, group, groups1, groups2) && group != []
    ensures var n := |group| - 1;
            && GroupInput(ids, group[..n], groups1, groups2)
            && Neighbours(EntryRoutes(group, groups1, groups2), e) ==
               Neighbours(EntryRoutes(group[..n], groups1, groups2), e)
               + (if e in Lookup(groups1, group[n].id) then Preferred(group[n], groups2)
                  else if e in Preferred(group[n], groups2) then Lookup(groups1, group[n].id)
                  else [])
  {
    hide Neighbours, Cartesian, Preferred, Lookup;
    var n := |group| - 1;
    PreferredOf(ids, group, groups1, groups2, n);
    NeighboursConcat(EntryRoutes(group[..n], groups1, groups2), Block(group[n], groups1, groups2), e);
    CartesianNeighbours(Lookup(groups1, group[n].id), Preferred(group[n], groups2), e);
  }

  lemma {:induction false} NeighboursOfUnlisted<E>(ids: E -> string, group: seq<Entry>, groups1: Groups<E>,
                                                   groups2: Groups<E>, x: E)
    requires GroupInput(ids, group, groups1, groups2)
    requires x in Lookup(groups1, ids(x))
    requires forall i :: 0 <= i < |group| ==> group[i].id != ids(x)
    ensures Neighbours(EntryRoutes(group, groups1, groups2), x) == []
  {
    if group != [] {
      hide EntryRoutes, Preferred, Lookup, GroupInput, Neighbours;
      var n := |group| - 1;
      SplitLast(ids, group, groups1, groups2, x);
      NeighboursOfUnlisted(ids, group[..n], groups1, groups2, x);
      assert x !in Preferred(group[n], groups2) by { PreferredOf(ids, group, groups1, groups2, n); }
      WellGroupedInput(ids, group, groups1, groups2);
      NotUnderOtherId(ids, groups1, group[n].id, x);
    }
  }

  /** An entity of the first side meets only the block of the entry that carries its id. */
  lemma {:induction false} NeighboursOfMember<E>(ids: E -> string, group: seq<Entry>, groups1: Groups<E>,
                                                 groups2: Groups<E>, x: E, a: int)
    requires GroupInput(ids, group, groups1, groups2)
    requires x in Lookup(groups1, ids(x))
    requires 0 <= a < |group| && group[a].id == ids(x)
    ensures Neighbours(EntryRoutes(group, groups1, groups2), x) == Preferred(group[a], groups2)
  {
    hide EntryRoutes, Preferred, Lookup, GroupInput, Neighbours;
    var n := |group| - 1;
    SplitLast(ids, group, groups1, groups2, x);
    WellGroupedInput(ids, group, groups1, groups2);
    if a == n {
      NeighboursOfUnlisted(ids, group[..n], groups1, groups2, x);
    } else {
      NeighboursOfMember(ids, group[..n], groups1, groups2, x, a);
      assert x !in Preferred(group[n], groups2) by { PreferredOf(ids, group, groups1, groups2, n); }
      NotUnderOtherId(ids, groups1, group[n].id, x);
    }
  }

  lemma MarketInput<E>(mk: Market<E>, vol: map<E, int>)
    requires Sound(mk, vol) && DistinctIds(mk.priority)
    ensures GroupInput(mk.ids, FirstUsableEntries(mk.priority, Groups1(mk, vol)), Groups1(mk, vol), Groups2(mk, vol))
  {
    hide Groups1, Groups2;
    var groups1, groups2 := Groups1(mk, vol), Groups2(mk, vol);
    MarketGroups(mk, vol);
    var j := FirstUsableEntriesIsFirst(mk.priority, groups1);
    forall id, id' | id in groups1 && id' in groups2
      ensures forall i, j :: 0 <= i < |groups1[id]| && 0 <= j < |groups2[id']| ==> groups1[id][i] != groups2[id'][j]
    {
      MarketLookup(mk, vol, id);
      MarketLookup(mk, vol, id');
      forall i, j | 0 <= i < |groups1[id]| && 0 <= j < |groups2[id']| ensures groups1[id][i] != groups2[id'][j] {
        assert groups1[id][i] in Lookup(groups1, id) && groups2[id'][j] in Lookup(groups2, id');
      }
    }
  }
}
