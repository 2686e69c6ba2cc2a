/** What one round of the spread matcher guarantees. */
module SpreadRoundFacts {
  import opened Arithmetic
  import opened Sequences
  import opened SpreadRound

  // ----- prepared entities

  lemma {:induction false} LiveMembers<E>(es: seq<E>, vol: map<E, int>)
    ensures forall e :: e in Live(es, vol) <==> e in es && Volume(vol, e) != 0
    ensures NoDuplicates(es) ==> NoDuplicates(Live(es, vol))
  {
    if es != [] {
      var n := |es| - 1;
      LiveMembers(es[..n], vol);
      assert es == es[..n] + [es[n]];
      if NoDuplicates(es) && Volume(vol, es[n]) != 0 {
        NoDuplicatesConcat(Live(es[..n], vol), [es[n]]);
      }
    }
  }

  lemma LiveMember<E>(es: seq<E>, vol: map<E, int>, e: E)
    ensures e in Live(es, vol) <==> e in es && Volume(vol, e) != 0
  {
    LiveMembers(es, vol);
  }

  /** The groups hold exactly the given entities, each under its own id. */
  lemma {:induction false} GroupedMembers<E>(ids: E -> string, es: seq<E>, id: string)
    ensures forall e :: e in Lookup(Grouped(ids, es), id) <==> e in es && ids(e) == id
    ensures NoDuplicates(es) ==> NoDuplicates(Lookup(Grouped(ids, es), id))
  {
    if es != [] {
      var n := |es| - 1;
      GroupedMembers(ids, es[..n], id);
      assert es == es[..n] + [es[n]];
      var before := Lookup(Grouped(ids, es[..n]), id);
      assert Lookup(Grouped(ids, es), id) == if ids(es[n]) == id then before + [es[n]] else before;
      if NoDuplicates(es) {
        NoDuplicatesConcat(before, [es[n]]);
      }
    }
  }

  /** Every entity is listed under its own id, once. */
  ghost predicate WellGrouped<E>(ids: E -> string, groups: Groups<E>) {
    forall id | id in groups ::
      && NoDuplicates(groups[id])
      && forall i :: 0 <= i < |groups[id]| ==> ids(groups[id][i]) == id
  }

  lemma {:induction false} GroupedWell<E>(ids: E -> string, es: seq<E>)
    requires NoDuplicates(es)
    ensures WellGrouped(ids, Grouped(ids, es))
  {
    var groups := Grouped(ids, es);
    forall id | id in groups
      ensures NoDuplicates(groups[id]) && forall i :: 0 <= i < |groups[id]| ==> ids(groups[id][i]) == id
    {
      GroupedMembers(ids, es, id);
      assert Lookup(groups, id) == groups[id];
      forall i | 0 <= i < |groups[id]| ensures ids(groups[id][i]) == id {
        assert groups[id][i] in Lookup(groups, id);
      }
    }
  }

  lemma UnderOwnId<E>(ids: E -> string, groups: Groups<E>, id: string, e: E)
    requires WellGrouped(ids, groups)
    requires e in Lookup(groups, id)
    ensures ids(e) == id
  {
    var i :| 0 <= i < |Lookup(groups, id)| && Lookup(groups, id)[i] == e;
  }

  lemma NotUnderOtherId<E>(ids: E -> string, groups: Groups<E>, id: string, e: E)
    requires WellGrouped(ids, groups)
    requires ids(e) != id
    ensures e !in Lookup(groups, id)
  {
    assert forall i :: 0 <= i < |Lookup(groups, id)| ==> ids(Lookup(groups, id)[i]) == id;
  }

  // ----- the first usable groups

  ghost predicate AnyEntryUsable<E>(group: seq<Entry>, groups: Groups<E>) {
    exists i :: 0 <= i < |group| && EntryUsable(group[i], groups)
  }

  ghost predicate AnyIdUsable<E>(group: seq<string>, groups: Groups<E>) {
    exists i :: 0 <= i < |group| && IdUsable(group[i], groups)
  }

  /** The chosen group is usable and no earlier group is; nothing is chosen only if no group is usable. */
  lemma {:induction false} FirstUsableEntriesIsFirst<E>(priority: Priority, groups: Groups<E>) returns (j: nat)
    ensures j <= |priority|
    ensures forall i :: 0 <= i < j ==> !AnyEntryUsable(priority[i], groups)
    ensures j < |priority| ==>
              AnyEntryUsable(priority[j], groups) && FirstUsableEntries(priority, groups) == priority[j]
    ensures j == |priority| ==> FirstUsableEntries(priority, groups) == []
  {
    if priority == [] || AnyEntryUsable(priority[0], groups) {
      j := 0;
    } else {
      var k := FirstUsableEntriesIsFirst(priority[1..], groups);
      j := k + 1;
      forall i | 0 <= i < j ensures !AnyEntryUsable(priority[i], groups) {
        if i > 0 {
          assert priority[i] == priority[1..][i - 1];
        }
      }
    }
  }

  lemma {:induction false} FirstUsableIdsIsFirst<E>(preferences: seq<seq<string>>, groups: Groups<E>) returns (j: nat)
    ensures j <= |preferences|
    ensures forall i :: 0 <= i < j ==> !AnyIdUsable(preferences[i], groups)
    ensures j < |preferences| ==>
              AnyIdUsable(preferences[j], groups) && FirstUsableIds(preferences, groups) == preferences[j]
    ensures j == |preferences| ==> FirstUsableIds(preferences, groups) == []
  {
    if preferences == [] || AnyIdUsable(preferences[0], groups) {
      j := 0;
    } else {
      var k := FirstUsableIdsIsFirst(preferences[1..], groups);
      j := k + 1;
      forall i | 0 <= i < j ensures !AnyIdUsable(preferences[i], groups) {
        if i > 0 {
          assert preferences[i] == preferences[1..][i - 1];
        }
      }
    }
  }

  // ----- members of the route lists

  ghost predicate InGroup<E>(group: seq<string>, groups: Groups<E>, e: E) {
    exists i :: 0 <= i < |group| && e in Lookup(groups, group[i])
  }

  lemma {:induction false} EntitiesOfMembers<E>(group: seq<string>, groups: Groups<E>)
    ensures forall e :: e in EntitiesOf(group, groups) <==> InGroup(group, groups, e)
  {
    if group != [] {
      var n := |group| - 1;
      EntitiesOfMembers(group[..n], groups);
      forall e ensures InGroup(group, groups, e) <==> InGroup(group[..n], groups, e) || e in Lookup(groups, group[n]) {
        if InGroup(group[..n], groups, e) {
          var i :| 0 <= i < |group[..n]| && e in Lookup(groups, group[..n][i]);
          assert e in Lookup(groups, group[i]);
        }
        if InGroup(group, groups, e) && e !in Lookup(groups, group[n]) {
          var i :| 0 <= i < |group| && e in Lookup(groups, group[i]);
          assert e in Lookup(groups, group[..n][i]);
        }
      }
    }
  }

  lemma {:induction false} EntitiesOfDistinct<E>(ids: E -> string, group: seq<string>, groups: Groups<E>)
    requires WellGrouped(ids, groups)
    requires NoDuplicates(group)
    ensures NoDuplicates(EntitiesOf(group, groups))
  {
    if group != [] {
      var n := |group| - 1;
      EntitiesOfDistinct(ids, group[..n], groups);
      EntitiesOfMembers(group[..n], groups);
      forall e | e in EntitiesOf(group[..n], groups) ensures e !in Lookup(groups, group[n]) {
        assert InGroup(group[..n], groups, e);
        var i :| 0 <= i < |group[..n]| && e in Lookup(groups, group[..n][i]);
        UnderOwnId(ids, groups, group[i], e);
        NotUnderOtherId(ids, groups, group[n], e);
      }
      NoDuplicatesConcat(EntitiesOf(group[..n], groups), Lookup(groups, group[n]));
    }
  }

  lemma {:induction false} PairWithMembers<E>(e: E, others: seq<E>)
    ensures |PairWith(e, others)| == |others|
    ensures forall i :: 0 <= i < |others| ==> PairWith(e, others)[i] == (e, others[i])
  {
    if others != [] {
      PairWithMembers(e, others[..|others| - 1]);
    }
  }

  lemma {:induction false} CartesianMembers<E>(firsts: seq<E>, seconds: seq<E>)
    ensures forall r :: r in Cartesian(firsts, seconds) <==> r.0 in firsts && r.1 in seconds
    ensures NoDuplicates(firsts) && NoDuplicates(seconds) ==> NoDuplicates(Cartesian(firsts, seconds))
  {
    if firsts != [] {
      var n := |firsts| - 1;
      CartesianMembers(firsts[..n], seconds);
      PairWithMembers(firsts[n], seconds);
      assert firsts == firsts[..n] + [firsts[n]];
      forall r ensures r in PairWith(firsts[n], seconds) <==> r.0 == firsts[n] && r.1 in seconds {
        if r.0 == firsts[n] && r.1 in seconds {
          var i :| 0 <= i < |seconds| && seconds[i] == r.1;
          assert PairWith(firsts[n], seconds)[i] == r;
        }
      }
      if NoDuplicates(firsts) && NoDuplicates(seconds) {
        NoDuplicatesConcat(Cartesian(firsts[..n], seconds), PairWith(firsts[n], seconds));
      }
    }
  }

  /** The routes of a pairing go through the first entities and, for each of them, through the second ones. */
  lemma {:induction false} CartesianAt<E>(firsts: seq<E>, seconds: seq<E>, i: nat, j: nat)
    requires i < |firsts| && j < |seconds|
    ensures |Cartesian(firsts, seconds)| == |firsts| * |seconds|
    ensures i * |seconds| + j < |Cartesian(firsts, seconds)|
    ensures Cartesian(firsts, seconds)[i * |seconds| + j] == (firsts[i], seconds[j])
  {
    var n, m := |firsts| - 1, |seconds|;
    PairWithMembers(firsts[n], seconds);
    assert n * m + m == |firsts| * m;
    if n > 0 {
      CartesianAt(firsts[..n], seconds, if i < n then i else 0, j);
    } else {
      assert firsts[..n] == [];
    }
  }

  ghost predicate RoutedBy<E>(entry: Entry, groups1: Groups<E>, groups2: Groups<E>, r: Route<E>) {
    r.0 in Lookup(groups1, entry.id) && r.1 in Preferred(entry, groups2)
  }

  ghost predicate RoutedInGroup<E>(group: seq<Entry>, groups1: Groups<E>, groups2: Groups<E>, r: Route<E>) {
    exists i :: 0 <= i < |group| && RoutedBy(group[i], groups1, groups2, r)
  }

  lemma {:induction false} EntryRoutesMembers<E>(group: seq<Entry>, groups1: Groups<E>, groups2: Groups<E>)
    ensures forall r :: r in EntryRoutes(group, groups1, groups2) <==> RoutedInGroup(group, groups1, groups2, r)
  {
    if group != [] {
      var n := |group| - 1;
      hide Lookup, Preferred, Cartesian;
      EntryRoutesMembers(group[..n], groups1, groups2);
      CartesianMembers(Lookup(groups1, group[n].id), Preferred(group[n], groups2));
      forall r { RoutedInLonger(group, groups1, groups2, r); }
    }
  }

  lemma RoutedInLonger<E>(group: seq<Entry>, groups1: Groups<E>, groups2: Groups<E>, r: Route<E>)
    requires group != []
    ensures RoutedInGroup(group, groups1, groups2, r) <==>
            RoutedInGroup(group[..|group| - 1], groups1, groups2, r)
            || RoutedBy(group[|group| - 1], groups1, groups2, r)
  {
    hide RoutedBy;
    var n := |group| - 1;
    if RoutedInGroup(group[..n], groups1, groups2, r) {
      var i :| 0 <= i < |group[..n]| && RoutedBy(group[..n][i], groups1, groups2, r);
      assert RoutedBy(group[i], groups1, groups2, r);
    }
    if RoutedInGroup(group, groups1, groups2, r) && !RoutedBy(group[n], groups1, groups2, r) {
      var i :| 0 <= i < |group| && RoutedBy(group[i], groups1, groups2, r);
      assert RoutedBy(group[..n][i], groups1, groups2, r);
    }
  }

  ghost predicate DistinctEntries(group: seq<Entry>) {
    && (forall i, j :: 0 <= i < j < |group| ==> group[i].id != group[j].id)
    && forall i, p :: 0 <= i < |group| && 0 <= p < |group[i].preferences| ==> NoDuplicates(group[i].preferences[p])
  }

  // ----- neighbours

  /** Every route leads from a first entity to a second one, and nothing is both. */
  ghost predicate Bipartite<E>(routes: seq<Route<E>>, side1: seq<E>, side2: seq<E>) {
    && (forall e | e in side1 :: e !in side2)
    && forall i :: 0 <= i < |routes| ==> routes[i].0 in side1 && routes[i].1 in side2
  }

  lemma {:induction false} NeighboursMembers<E>(routes: seq<Route<E>>, e: E)
    ensures forall o :: o in Neighbours(routes, e) <==> (e, o) in routes || (o, e) in routes
  {
    if routes != [] {
      var n := |routes| - 1;
      NeighboursMembers(routes[..n], e);
      assert routes == routes[..n] + [routes[n]];
      assert routes[n] == (routes[n].0, routes[n].1);
    }
  }

  lemma {:induction false} NeighboursDistinct<E>(routes: seq<Route<E>>, side1: seq<E>, side2: seq<E>, e: E)
    requires Bipartite(routes, side1, side2)
    requires NoDuplicates(routes)
    ensures NoDuplicates(Neighbours(routes, e))
    ensures e !in Neighbours(routes, e)
  {
    if routes != [] {
      var n := |routes| - 1;
      assert routes == routes[..n] + [routes[n]];
      NeighboursDistinct(routes[..n], side1, side2, e);
      NeighboursMembers(routes[..n], e);
      assert routes[n] !in routes[..n];
      assert routes[n] == (routes[n].0, routes[n].1);
      assert routes[n].0 in side1 && routes[n].1 in side2;
      assert forall r | r in routes[..n] :: r.0 in side1 && r.1 in side2;
    }
  }

  lemma {:induction false} WithRoutesMembers<E>(es: seq<E>, routes: seq<Route<E>>)
    ensures forall e :: e in WithRoutes(es, routes) <==> e in es && Neighbours(routes, e) != []
  {
    if es != [] {
      var n := |es| - 1;
      WithRoutesMembers(es[..n], routes);
      assert es == es[..n] + [es[n]];
    }
  }

  // ----- shares

  lemma {:induction false} SmallestShareIsLeast<E>(es: seq<E>, vol: map<E, int>, routes: seq<Route<E>>)
    requires es != []
    ensures forall i :: 0 <= i < |es| ==>
            Share(vol, routes, SmallestShare(es, vol, routes)) <= Share(vol, routes, es[i])
  {
    var n := |es| - 1;
    if n > 0 {
      SmallestShareIsLeast(es[..n], vol, routes);
      assert forall i :: 0 <= i < n ==> es[i] == es[..n][i];
    }
  }

  // ----- volumes drawn by the matches

  lemma DrawnAppend<E>(ms: seq<Match<E>>, m: Match<E>, e: E)
    ensures Drawn(ms + [m], e) ==
            Drawn(ms, e) + (if m.first == e then m.volume else 0) + (if m.second == e then m.volume else 0)
  {
    assert (ms + [m])[..|ms|] == ms;
  }

  lemma {:induction false} DrawnFromMatch<E>(ms: seq<Match<E>>, e: E)
    requires Drawn(ms, e) != 0
    ensures exists m | m in ms :: m.first == e || m.second == e
  {
    var n := |ms| - 1;
    assert ms == ms[..n] + [ms[n]];
    if ms[n].first != e && ms[n].second != e {
      DrawnFromMatch(ms[..n], e);
    } else {
      assert ms[n] in ms;
    }
  }

  lemma NotDrawn<E>(ms: seq<Match<E>>, e: E)
    requires forall m | m in ms :: m.first != e && m.second != e
    ensures Drawn(ms, e) == 0
  {
    hide Drawn;
    if Drawn(ms, e) != 0 {
      DrawnFromMatch(ms, e);
    }
  }

  lemma {:induction false} UniformDraws<E>(routes: seq<Route<E>>, volume: int, side1: seq<E>, side2: seq<E>, e: E)
    requires Bipartite(routes, side1, side2)
    ensures Drawn(Uniform(routes, volume), e) == volume * |Neighbours(routes, e)|
  {
    if routes != [] {
      var n := |routes| - 1;
      var r := routes[n];
      assert r.0 != r.1;
      UniformDraws(routes[..n], volume, side1, side2, e);
      DrawnAppend(Uniform(routes[..n], volume), Match(r.0, r.1, volume), e);
      OneMore(volume, |Neighbours(routes[..n], e)|);
    }
  }

  lemma {:induction false} UniformShape<E>(routes: seq<Route<E>>, volume: int)
    ensures |Uniform(routes, volume)| == |routes|
    ensures forall i :: 0 <= i < |routes| ==> Uniform(routes, volume)[i] == Match(routes[i].0, routes[i].1, volume)
  {
    if routes != [] {
      UniformShape(routes[..|routes| - 1], volume);
    }
  }

  lemma {:induction false} UnitsShape<E>(chosen: E, isFirst: bool, others: seq<E>)
    ensures |Units(chosen, isFirst, others)| == |others|
    ensures forall i :: 0 <= i < |others| ==>
              Units(chosen, isFirst, others)[i] ==
              if isFirst then Match(chosen, others[i], 1) else Match(others[i], chosen, 1)
  {
    if others != [] {
      UnitsShape(chosen, isFirst, others[..|others| - 1]);
    }
  }

  lemma {:induction false} UnitsDraw<E>(chosen: E, isFirst: bool, others: seq<E>, e: E)
    requires chosen !in others
    requires NoDuplicates(others)
    ensures Drawn(Units(chosen, isFirst, others), e) ==
            if e == chosen then |others| else if e in others then 1 else 0
  {
    if others != [] {
      var n := |others| - 1;
      UnitsDraw(chosen, isFirst, others[..n], e);
      DrawnAppend(Units(chosen, isFirst, others[..n]),
                  if isFirst then Match(chosen, others[n], 1) else Match(others[n], chosen, 1), e);
      assert others == others[..n] + [others[n]];
      assert others[n] !in others[..n];
    }
  }

  // ----- a round in a market

  lemma MarketGroups<E>(mk: Market<E>, vol: map<E, int>)
    requires WellFormed(mk, vol)
    ensures WellGrouped(mk.ids, Groups1(mk, vol)) && WellGrouped(mk.ids, Groups2(mk, vol))
  {
    LiveMembers(mk.side1, vol);
    LiveMembers(mk.side2, vol);
    GroupedWell(mk.ids, Live(mk.side1, vol));
    GroupedWell(mk.ids, Live(mk.side2, vol));
  }

  /** An entity is found under an id exactly when it carries that id and has volume left. */
  lemma MarketLookup<E>(mk: Market<E>, vol: map<E, int>, id: string)
    ensures forall e :: e in Lookup(Groups1(mk, vol), id) <==> e in mk.side1 && Volume(vol, e) != 0 && mk.ids(e) == id
    ensures forall e :: e in Lookup(Groups2(mk, vol), id) <==> e in mk.side2 && Volume(vol, e) != 0 && mk.ids(e) == id
  {
    LiveMembers(mk.side1, vol);
    LiveMembers(mk.side2, vol);
    GroupedMembers(mk.ids, Live(mk.side1, vol), id);
    GroupedMembers(mk.ids, Live(mk.side2, vol), id);
  }

  /** Where a route of a round comes from: an entry of a priority group and an id among its preferences. */
  ghost predicate RouteFrom<E>(mk: Market<E>, vol: map<E, int>, r: Route<E>, j: nat, k: nat, p: nat) {
    && j < |mk.priority| && k < |mk.priority[j]| && p < |mk.priority[j][k].preferences|
    && FirstUsableEntries(mk.priority, Groups1(mk, vol)) == mk.priority[j]
    && (forall i :: 0 <= i < j ==> !AnyEntryUsable(mk.priority[i], Groups1(mk, vol)))
    && (forall i :: 0 <= i < p ==> !AnyIdUsable(mk.priority[j][k].preferences[i], Groups2(mk, vol)))
    && mk.ids(r.0) == mk.priority[j][k].id
    && mk.ids(r.1) in mk.priority[j][k].preferences[p]
    && r.0 in mk.side1 && Volume(vol, r.0) != 0
    && r.1 in mk.side2 && Volume(vol, r.1) != 0
  }

  lemma RouteOrigin<E>(mk: Market<E>, vol: map<E, int>, r: Route<E>) returns (j: nat, k: nat, p: nat)
    requires WellFormed(mk, vol)
    requires r in RoundRoutes(mk, vol)
    ensures RouteFrom(mk, vol, r, j, k, p)
  {
    var groups1, groups2 := Groups1(mk, vol), Groups2(mk, vol);
    var group := FirstUsableEntries(mk.priority, groups1);
    j := FirstUsableEntriesIsFirst(mk.priority, groups1);
    EntryRoutesMembers(group, groups1, groups2);
    assert RoutedInGroup(group, groups1, groups2, r);
    k :| 0 <= k < |group| && RoutedBy(group[k], groups1, groups2, r);
    var preferences := group[k].preferences;
    p := FirstUsableIdsIsFirst(preferences, groups2);
    EntitiesOfMembers(FirstUsableIds(preferences, groups2), groups2);
    assert InGroup(FirstUsableIds(preferences, groups2), groups2, r.1);
    var q :| 0 <= q < |preferences[p]| && r.1 in Lookup(groups2, preferences[p][q]);
    MarketLookup(mk, vol, group[k].id);
    MarketLookup(mk, vol, preferences[p][q]);
  }

  /** Routes join live entities of the two sides. */
  lemma RoundRoutesShape<E>(mk: Market<E>, vol: map<E, int>)
    requires WellFormed(mk, vol)
    ensures Bipartite(RoundRoutes(mk, vol), mk.side1, mk.side2)
    ensures forall r | r in RoundRoutes(mk, vol) :: Volume(vol, r.0) != 0 && Volume(vol, r.1) != 0
  {
    forall r | r in RoundRoutes(mk, vol)
      ensures r.0 in mk.side1 && r.1 in mk.side2 && Volume(vol, r.0) != 0 && Volume(vol, r.1) != 0
    {
      var j, k, p := RouteOrigin(mk, vol, r);
    }
    assert forall i :: 0 <= i < |RoundRoutes(mk, vol)| ==> RoundRoutes(mk, vol)[i] in RoundRoutes(mk, vol);
  }

  /** The entities that measure the amount of a round are exactly the ends of its routes. */
  lemma CandidateHasRoute<E>(mk: Market<E>, vol: map<E, int>, e: E)
    requires WellFormed(mk, vol)
    ensures e in Candidates(mk, vol) <==> Neighbours(RoundRoutes(mk, vol), e) != []
    ensures e in Candidates(mk, vol) ==> Volume(vol, e) != 0 && (e in mk.side1 || e in mk.side2)
  {
    var routes := RoundRoutes(mk, vol);
    var live1, live2 := Live(mk.side1, vol), Live(mk.side2, vol);
    assert e in Candidates(mk, vol) <==> (e in live1 || e in live2) && Neighbours(routes, e) != [] by {
      WithRoutesMembers(live1, routes);
      WithRoutesMembers(live2, routes);
    }
    assert e in live1 <==> e in mk.side1 && Volume(vol, e) != 0 by { LiveMembers(mk.side1, vol); }
    assert e in live2 <==> e in mk.side2 && Volume(vol, e) != 0 by { LiveMembers(mk.side2, vol); }
    if Neighbours(routes, e) != [] {
      EndOfRoute(mk, vol, e, Neighbours(routes, e)[0]);
    }
  }

  lemma EndOfRoute<E>(mk: Market<E>, vol: map<E, int>, e: E, o: E)
    requires WellFormed(mk, vol)
    requires o in Neighbours(RoundRoutes(mk, vol), e)
    ensures Volume(vol, e) != 0 && Volume(vol, o) != 0
    ensures (e in mk.side1 && o in mk.side2) || (e in mk.side2 && o in mk.side1)
  {
    NeighboursMembers(RoundRoutes(mk, vol), e);
    var r := if (e, o) in RoundRoutes(mk, vol) then (e, o) else (o, e);
    var j, k, p := RouteOrigin(mk, vol, r);
  }

  lemma RoutesGiveCandidates<E>(mk: Market<E>, vol: map<E, int>)
    requires WellFormed(mk, vol)
    ensures RoundRoutes(mk, vol) != [] <==> Candidates(mk, vol) != []
  {
    var routes := RoundRoutes(mk, vol);
    if routes != [] {
      NeighboursMembers(routes, routes[0].0);
      assert (routes[0].0, routes[0].1) in routes;
      assert routes[0].1 in Neighbours(routes, routes[0].0);
      CandidateHasRoute(mk, vol, routes[0].0);
    } else if Candidates(mk, vol) != [] {
      CandidateHasRoute(mk, vol, Candidates(mk, vol)[0]);
    }
  }
}
