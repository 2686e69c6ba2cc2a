/** A priority joins two entities at most once in a round unless it links their ids more than once. */
module SpreadLinks {
  import opened Sequences
  import opened SpreadRound
  import opened SpreadRoundFacts

  lemma {:induction false} DistinctByCounts<T>(s: seq<T>)
    requires forall x :: multiset(s)[x] <= 1
    ensures NoDuplicates(s)
  {
    if s != [] {
      var n := |s| - 1;
      assert s == s[..n] + [s[n]];
      forall x ensures multiset(s[..n])[x] <= 1 {
        assert multiset(s)[x] <= 1;
      }
      DistinctByCounts(s[..n]);
      assert multiset(s)[s[n]] <= 1;
      assert s[n] !in multiset(s[..n]);
    }
  }

  lemma {:induction false} CountInPairs<E>(e: E, others: seq<E>, r: Route<E>)
    ensures multiset(PairWith(e, others))[r] == if r.0 == e then multiset(others)[r.1] else 0
  {
    if others != [] {
      var n := |others| - 1;
      CountInPairs(e, others[..n], r);
      assert others == others[..n] + [others[n]];
      assert (e, others[n]) == r <==> e == r.0 && others[n] == r.1;
    }
  }

  lemma {:induction false} CountInCartesian<E>(firsts: seq<E>, seconds: seq<E>, r: Route<E>)
    requires NoDuplicates(firsts)
    ensures multiset(Cartesian(firsts, seconds))[r] == if r.0 in firsts then multiset(seconds)[r.1] else 0
  {
    if firsts != [] {
      var n := |firsts| - 1;
      CountInCartesian(firsts[..n], seconds, r);
      CountInPairs(firsts[n], seconds, r);
      assert firsts == firsts[..n] + [firsts[n]];
      assert firsts[n] !in firsts[..n];
    }
  }

  lemma CountOfLast<T>(s: seq<T>, x: T)
    requires s != []
    ensures multiset(s)[x] == multiset(s[..|s| - 1])[x] + if s[|s| - 1] == x then 1 else 0
  {
    assert s == s[..|s| - 1] + [s[|s| - 1]];
  }

  lemma CountUnderId<E>(ids: E -> string, groups: Groups<E>, id: string, e: E)
    requires WellGrouped(ids, groups)
    ensures multiset(Lookup(groups, id))[e] == if e in Lookup(groups, ids(e)) && id == ids(e) then 1 else 0
  {
    DistinctUnderId(ids, groups, id);
    CountOfDistinct(Lookup(groups, id), e);
    if e in Lookup(groups, id) {
      UnderOwnId(ids, groups, id, e);
    }
  }

  lemma {:induction false} CountInEntities<E>(ids: E -> string, group: seq<string>, groups: Groups<E>, e: E)
    requires WellGrouped(ids, groups)
    ensures multiset(EntitiesOf(group, groups))[e] == if e in Lookup(groups, ids(e)) then multiset(group)[ids(e)] else 0
  {
    hide Lookup, WellGrouped;
    if group != [] {
      var n := |group| - 1;
      CountInEntities(ids, group[..n], groups, e);
      CountUnderId(ids, groups, group[n], e);
      CountOfLast(group, ids(e));
    }
  }

  /** If an id is usable, the first usable group is the first that lists it, or does not list it at all. */
  lemma {:induction false} UsableIdsListing<E>(preferences: seq<seq<string>>, groups: Groups<E>, id: string)
    requires IdUsable(id, groups)
    ensures id in FirstUsableIds(preferences, groups) ==>
            FirstUsableIds(preferences, groups) == FirstListing(preferences, id)
  {
    if preferences != [] {
      UsableIdsListing(preferences[1..], groups, id);
    }
  }

  lemma {:induction false} UsableEntriesListing<E>(priority: Priority, groups: Groups<E>, id: string)
    requires Lookup(groups, id) != []
    ensures var group := FirstUsableEntries(priority, groups);
            Lists(group, id) ==> group == FirstListingEntries(priority, id)
  {
    if priority != [] {
      UsableEntriesListing(priority[1..], groups, id);
      if Lists(priority[0], id) {
        var i :| 0 <= i < |priority[0]| && priority[0][i].id == id;
        assert EntryUsable(priority[0][i], groups);
      }
    }
  }

  lemma CountInPreferred<E>(ids: E -> string, entry: Entry, groups2: Groups<E>, e: E)
    requires WellGrouped(ids, groups2)
    ensures multiset(Preferred(entry, groups2))[e] <= multiset(FirstListing(entry.preferences, ids(e)))[ids(e)]
  {
    var group := FirstUsableIds(entry.preferences, groups2);
    CountInEntities(ids, group, groups2, e);
    if e in Lookup(groups2, ids(e)) {
      UsableIdsListing(entry.preferences, groups2, ids(e));
    }
  }

  lemma {:induction false} CountInEntryRoutes<E>(ids: E -> string, group: seq<Entry>, groups1: Groups<E>,
                                                 groups2: Groups<E>, r: Route<E>)
    requires WellGrouped(ids, groups1) && WellGrouped(ids, groups2)
    ensures multiset(EntryRoutes(group, groups1, groups2))[r] <= GroupLinks(group, ids(r.0), ids(r.1))
  {
    hide Preferred, Cartesian, Lookup, FirstListing;
    if group != [] {
      var n := |group| - 1;
      CountInEntryRoutes(ids, group[..n], groups1, groups2, r);
      var firsts := Lookup(groups1, group[n].id);
      assert NoDuplicates(firsts) by { DistinctUnderId(ids, groups1, group[n].id); }
      CountInCartesian(firsts, Preferred(group[n], groups2), r);
      CountInPreferred(ids, group[n], groups2, r.1);
      if r.0 in firsts {
        UnderOwnId(ids, groups1, group[n].id, r.0);
      }
    }
  }

  lemma DistinctUnderId<E>(ids: E -> string, groups: Groups<E>, id: string)
    requires WellGrouped(ids, groups)
    ensures NoDuplicates(Lookup(groups, id))
  {
  }

  lemma {:induction false} NoLinks(group: seq<Entry>, id1: string, id2: string)
    requires !Lists(group, id1)
    ensures GroupLinks(group, id1, id2) == 0
  {
    if group != [] {
      var n := |group| - 1;
      assert group[n].id != id1;
      assert !Lists(group[..n], id1) by {
        forall i | 0 <= i < n ensures group[..n][i].id != id1 { assert group[i].id != id1; }
      }
      NoLinks(group[..n], id1, id2);
    }
  }

  /** Two entities are joined in a round at most as often as the priority links their ids. */
  lemma CountInRoutes<E>(mk: Market<E>, vol: map<E, int>, r: Route<E>)
    requires Valid(mk, vol)
    ensures multiset(RoundRoutes(mk, vol))[r] <= Links(mk.priority, mk.ids(r.0), mk.ids(r.1))
  {
    hide GroupLinks, FirstListingEntries, Groups1, Groups2, EntryRoutes;
    var groups1, groups2 := Groups1(mk, vol), Groups2(mk, vol);
    var group := FirstUsableEntries(mk.priority, groups1);
    MarketGroups(mk, vol);
    CountInEntryRoutes(mk.ids, group, groups1, groups2, r);
    if r in RoundRoutes(mk, vol) {
      MarketLookup(mk, vol, mk.ids(r.0));
      var j, k, p := RouteOrigin(mk, vol, r);
      assert r.0 in Lookup(groups1, mk.ids(r.0));
      UsableEntriesListing(mk.priority, groups1, mk.ids(r.0));
      if !Lists(group, mk.ids(r.0)) {
        NoLinks(group, mk.ids(r.0), mk.ids(r.1));
      }
    }
  }

  /** Under an unambiguous priority the routes of a round are all different. */
  lemma RoutesAreDistinct<E>(mk: Market<E>, vol: map<E, int>)
    requires Valid(mk, vol) && Unambiguous(mk.priority)
    ensures NoDuplicates(RoundRoutes(mk, vol))
  {
    hide RoundRoutes, Links, Valid;
    forall r ensures multiset(RoundRoutes(mk, vol))[r] <= 1 {
      CountInRoutes(mk, vol, r);
    }
    DistinctByCounts(RoundRoutes(mk, vol));
  }

  // ----- lists without repeated ids are unambiguous

  lemma {:induction false} FirstListingIsListed(preferences: seq<seq<string>>, id: string)
    ensures FirstListing(preferences, id) == [] || FirstListing(preferences, id) in preferences
  {
    if preferences != [] {
      FirstListingIsListed(preferences[1..], id);
      assert preferences == [preferences[0]] + preferences[1..];
    }
  }

  lemma {:induction false} FirstListingEntriesAreListed(priority: Priority, id: string)
    ensures FirstListingEntries(priority, id) == [] || FirstListingEntries(priority, id) in priority
  {
    if priority != [] {
      FirstListingEntriesAreListed(priority[1..], id);
      assert priority == [priority[0]] + priority[1..];
    }
  }

  lemma {:induction false} DistinctEntriesLinkOnce(group: seq<Entry>, id1: string, id2: string)
    requires DistinctEntries(group)
    ensures GroupLinks(group, id1, id2) <= 1
  {
    if group != [] {
      var n := |group| - 1;
      DistinctEntriesLinkOnce(group[..n], id1, id2);
      var listing := FirstListing(group[n].preferences, id2);
      FirstListingIsListed(group[n].preferences, id2);
      CountOfDistinct(listing, id2);
      if group[n].id == id1 {
        assert !Lists(group[..n], id1);
        NoLinks(group[..n], id1, id2);
      }
    }
  }

  /** A priority that lists no id twice in a group is unambiguous. */
  lemma DistinctIdsAreUnambiguous(priority: Priority)
    requires DistinctIds(priority)
    ensures Unambiguous(priority)
  {
    forall id1, id2 ensures Links(priority, id1, id2) <= 1 {
      FirstListingEntriesAreListed(priority, id1);
      DistinctEntriesLinkOnce(FirstListingEntries(priority, id1), id1, id2);
    }
  }
}
