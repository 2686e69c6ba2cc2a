/** A round of the spread matcher is safe for all entities exactly when the priority is unambiguous. */
module SpreadRepeats {
  import opened SpreadRound
  import opened SpreadRoundFacts
  import opened SpreadLinks
  import opened SpreadRoundSafety
  import opened SpreadNeighbours

  // One consumer with three units, and two generators of the same id with one unit each.

  function TwinId(id1: string, id2: string): nat -> string {
    (e: nat) => if e == 0 then id1 else id2
  }

  ghost function TwinMarket(priority: Priority, id1: string, id2: string): Market<nat> {
    Market(priority, TwinId(id1, id2), [0], [1, 2])
  }

  ghost function TwinVolumes(): map<nat, int> {
    map[0 := 3, 1 := 1, 2 := 1]
  }

  /** The two generators, again and again. */
  function Twins(n: nat): (s: seq<nat>)
    ensures |s| == 2 * n
  {
    if n == 0 then [] else Twins(n - 1) + [1, 2]
  }

  lemma {:induction false} TwinsAdd(m: nat, n: nat)
    ensures Twins(m) + Twins(n) == Twins(m + n)
  {
    if n > 0 {
      TwinsAdd(m, n - 1);
      assert Twins(m) + Twins(n) == Twins(m) + Twins(n - 1) + [1, 2];
    }
  }

  lemma {:induction false} TwinsStart(n: nat)
    requires n >= 2
    ensures Twins(n)[..4] == [1, 2, 1, 2]
    ensures forall e :: e in Twins(n) ==> e == 1 || e == 2
  {
    if n > 2 {
      TwinsStart(n - 1);
      assert Twins(n)[..4] == Twins(n - 1)[..4];
    } else {
      assert Twins(1) == [1, 2];
      assert Twins(2) == [1, 2, 1, 2];
    }
  }

  ghost predicate TwinGroups(groups1: Groups<nat>, groups2: Groups<nat>, id1: string, id2: string) {
    groups1 == map[id1 := [0]] && groups2 == map[id2 := [1, 2]]
  }

  lemma LiveOfOne<E>(vol: map<E, int>, e: E)
    requires Volume(vol, e) != 0
    ensures Live([e], vol) == [e]
  {
    assert [e][..0] == [];
  }

  lemma LiveOfTwo<E>(vol: map<E, int>, e: E, f: E)
    requires Volume(vol, e) != 0 && Volume(vol, f) != 0
    ensures Live([e, f], vol) == [e, f]
  {
    assert [e, f][..1] == [e];
    LiveOfOne(vol, e);
  }

  lemma GroupedOfOne<E>(ids: E -> string, e: E)
    ensures Grouped(ids, [e]) == map[ids(e) := [e]]
  {
    assert [e][..0] == [];
    assert Lookup(map[], ids(e)) + [e] == [e];
  }

  lemma GroupedOfTwo<E>(ids: E -> string, e: E, f: E)
    requires ids(e) == ids(f)
    ensures Grouped(ids, [e, f]) == map[ids(e) := [e, f]]
  {
    assert [e, f][..1] == [e];
    GroupedOfOne(ids, e);
    assert [e] + [f] == [e, f];
  }

  lemma TwinsAreGrouped(priority: Priority, id1: string, id2: string)
    ensures TwinGroups(Groups1(TwinMarket(priority, id1, id2), TwinVolumes()),
                       Groups2(TwinMarket(priority, id1, id2), TwinVolumes()), id1, id2)
  {
    var n0: nat, n1: nat, n2: nat := 0, 1, 2;
    LiveOfOne(TwinVolumes(), n0);
    LiveOfTwo(TwinVolumes(), n1, n2);
    GroupedOfOne(TwinId(id1, id2), n0);
    GroupedOfTwo(TwinId(id1, id2), n1, n2);
  }

  lemma {:induction false} TwinEntries(priority: Priority, groups1: Groups<nat>, groups2: Groups<nat>, id1: string,
                                       id2: string)
    requires TwinGroups(groups1, groups2, id1, id2)
    ensures FirstUsableEntries(priority, groups1) == FirstListingEntries(priority, id1)
  {
    if priority != [] {
      TwinEntries(priority[1..], groups1, groups2, id1, id2);
      assert forall i :: 0 <= i < |priority[0]| ==>
             (EntryUsable(priority[0][i], groups1) <==> priority[0][i].id == id1);
    }
  }

  lemma {:induction false} TwinIds(preferences: seq<seq<string>>, groups1: Groups<nat>, groups2: Groups<nat>,
                                   id1: string, id2: string)
    requires TwinGroups(groups1, groups2, id1, id2)
    ensures FirstUsableIds(preferences, groups2) == FirstListing(preferences, id2)
  {
    if preferences != [] {
      TwinIds(preferences[1..], groups1, groups2, id1, id2);
      assert forall i :: 0 <= i < |preferences[0]| ==>
             (IdUsable(preferences[0][i], groups2) <==> preferences[0][i] == id2);
    }
  }

  lemma {:induction false} TwinEntities(group: seq<string>, groups1: Groups<nat>, groups2: Groups<nat>, id1: string,
                                        id2: string)
    requires TwinGroups(groups1, groups2, id1, id2)
    ensures EntitiesOf(group, groups2) == Twins(multiset(group)[id2])
  {
    if group != [] {
      var n := |group| - 1;
      TwinEntities(group[..n], groups1, groups2, id1, id2);
      CountOfLast(group, id2);
      assert Lookup(groups2, group[n]) == if group[n] == id2 then [1, 2] else [];
    }
  }

  lemma {:induction false} PairsConcat<E>(e: E, s: seq<E>, t: seq<E>)
    ensures PairWith(e, s + t) == PairWith(e, s) + PairWith(e, t)
  {
    if t == [] {
      assert s + t == s;
    } else {
      var n := |t| - 1;
      PairsConcat(e, s, t[..n]);
      assert (s + t)[..|s| + n] == s + t[..n];
    }
  }

  lemma CartesianOfOne<E>(e: E, seconds: seq<E>)
    ensures Cartesian([e], seconds) == PairWith(e, seconds)
  {
    assert [e][..0] == [];
    assert Cartesian([], seconds) + PairWith(e, seconds) == PairWith(e, seconds);
  }

  /** The routes of one entry: the consumer with the generators, as often as the entry links the ids. */
  lemma TwinBlock(entry: Entry, groups1: Groups<nat>, groups2: Groups<nat>, id1: string, id2: string)
    requires TwinGroups(groups1, groups2, id1, id2)
    ensures Cartesian(Lookup(groups1, entry.id), Preferred(entry, groups2)) ==
            PairWith(0, Twins(EntryLinks(entry, id1, id2)))
  {
    TwinIds(entry.preferences, groups1, groups2, id1, id2);
    TwinEntities(FirstListing(entry.preferences, id2), groups1, groups2, id1, id2);
    hide EntitiesOf, FirstListing, FirstUsableIds;
    if entry.id == id1 {
      hide Twins, PairWith, Cartesian;
      var zero: nat := 0;
      CartesianOfOne(zero, Twins(EntryLinks(entry, id1, id2)));
    }
  }

  lemma StepOfRoutes<E>(group: seq<Entry>, groups1: Groups<E>, groups2: Groups<E>, id1: string, id2: string)
    requires group != []
    ensures EntryRoutes(group, groups1, groups2) ==
            EntryRoutes(group[..|group| - 1], groups1, groups2)
            + Cartesian(Lookup(groups1, group[|group| - 1].id), Preferred(group[|group| - 1], groups2))
    ensures GroupLinks(group, id1, id2) ==
            GroupLinks(group[..|group| - 1], id1, id2) + EntryLinks(group[|group| - 1], id1, id2)
  {
  }

  lemma NoRoutes<E>(e: E, groups1: Groups<E>, groups2: Groups<E>, id1: string, id2: string)
    ensures EntryRoutes([], groups1, groups2) == [] && PairWith(e, []) == [] && GroupLinks([], id1, id2) == 0
  {
  }

  lemma {:induction false} TwinEntryRoutes(group: seq<Entry>, groups1: Groups<nat>, groups2: Groups<nat>, id1: string,
                                           id2: string)
    requires TwinGroups(groups1, groups2, id1, id2)
    ensures EntryRoutes(group, groups1, groups2) == PairWith(0, Twins(GroupLinks(group, id1, id2)))
  {
    hide PairWith, Twins, TwinGroups, Cartesian, Lookup, Preferred, EntryLinks, GroupLinks, EntryRoutes;
    var zero: nat := 0;
    if group == [] {
      NoRoutes(zero, groups1, groups2, id1, id2);
    } else {
      var n := |group| - 1;
      var before, links := GroupLinks(group[..n], id1, id2), EntryLinks(group[n], id1, id2);
      StepOfRoutes(group, groups1, groups2, id1, id2);
      TwinEntryRoutes(group[..n], groups1, groups2, id1, id2);
      TwinBlock(group[n], groups1, groups2, id1, id2);
      PairsConcat(zero, Twins(before), Twins(links));
      TwinsAdd(before, links);
    }
  }

  lemma TwinRoutes(priority: Priority, id1: string, id2: string)
    ensures RoundRoutes(TwinMarket(priority, id1, id2), TwinVolumes()) == PairWith(0, Twins(Links(priority, id1, id2)))
  {
    hide EntryRoutes, FirstUsableEntries, Groups1, Groups2, PairWith, Twins;
    var mk, vol := TwinMarket(priority, id1, id2), TwinVolumes();
    var groups1, groups2 := Groups1(mk, vol), Groups2(mk, vol);
    TwinsAreGrouped(priority, id1, id2);
    TwinEntries(priority, groups1, groups2, id1, id2);
    TwinEntryRoutes(FirstListingEntries(priority, id1), groups1, groups2, id1, id2);
  }

  lemma {:induction false} FirstSmallest<E>(es: seq<E>, vol: map<E, int>, routes: seq<Route<E>>)
    requires es != [] && Share(vol, routes, es[0]) == 0
    requires forall i :: 0 <= i < |es| ==> 0 <= Share(vol, routes, es[i])
    ensures SmallestShare(es, vol, routes) == es[0]
  {
    if |es| > 1 {
      FirstSmallest(es[..|es| - 1], vol, routes);
    }
  }

  lemma {:induction false} TwinNeighbours(routes: seq<Route<nat>>, links: nat)
    requires links >= 2 && routes == PairWith(0, Twins(links))
    ensures Neighbours(routes, 0) == Twins(links)
    ensures forall e :: 0 <= Share(TwinVolumes(), routes, e)
    ensures Share(TwinVolumes(), routes, 0) == 0
  {
    hide Neighbours, PairWith;
    var zero: nat := 0;
    TwinsStart(links);
    assert zero !in Twins(links);
    PairNeighbours(zero, Twins(links), zero);
    hide Twins;
    TwinShares(routes, links);
  }

  lemma TwinShares(routes: seq<Route<nat>>, links: nat)
    requires links >= 2 && |Neighbours(routes, 0)| == 2 * links
    ensures forall e :: 0 <= Share(TwinVolumes(), routes, e)
    ensures Share(TwinVolumes(), routes, 0) == 0
  {
    hide Neighbours;
    forall e ensures 0 <= Share(TwinVolumes(), routes, e) {
      NotNegativeShare(Volume(TwinVolumes(), e), |Neighbours(routes, e)|);
    }
    SmallQuotient(3, 2 * links);
  }

  lemma SmallQuotient(a: nat, b: nat)
    requires a < b
    ensures a / b == 0
  {
  }

  lemma NotNegativeShare(volume: int, degree: nat)
    requires 0 <= volume
    ensures degree > 0 ==> 0 <= volume / degree
  {
  }

  lemma TwinsAreValid(priority: Priority, id1: string, id2: string)
    ensures Valid(TwinMarket(priority, id1, id2), TwinVolumes())
  {
  }

  lemma WithRoutesOfOne<E>(routes: seq<Route<E>>, e: E)
    requires Neighbours(routes, e) != []
    ensures WithRoutes([e], routes) == [e]
  {
    hide Neighbours;
    assert [e][..0] == [];
  }

  lemma TwinCandidates(priority: Priority, id1: string, id2: string)
    requires Links(priority, id1, id2) >= 2
    ensures var mk, vol := TwinMarket(priority, id1, id2), TwinVolumes();
            && WithRoutes(Live(mk.side1, vol), RoundRoutes(mk, vol)) == [0]
            && Candidates(mk, vol) != [] && Candidates(mk, vol)[0] == 0
  {
    hide RoundRoutes, Neighbours, Twins, PairWith, Links, WithRoutes, Live;
    var mk, vol := TwinMarket(priority, id1, id2), TwinVolumes();
    var routes := RoundRoutes(mk, vol);
    TwinRoutes(priority, id1, id2);
    TwinNeighbours(routes, Links(priority, id1, id2));
    var zero: nat := 0;
    LiveOfOne(vol, zero);
    WithRoutesOfOne(routes, zero);
  }

  lemma UnitDrawn<E>(chosen: E, others: seq<E>, o: E, e: E)
    requires e != chosen
    ensures Drawn(Units(chosen, true, others + [o]), e) ==
            Drawn(Units(chosen, true, others), e) + if o == e then 1 else 0
  {
    assert (others + [o])[..|others|] == others;
    DrawnAppend(Units(chosen, true, others), Match(chosen, o, 1), e);
  }

  /** Three units for two generators with one unit each, served in turn: the first one gives two. */
  lemma TwinUnits<E>(chosen: E, one: E, two: E)
    requires chosen != one && one != two
    ensures Drawn(Units(chosen, true, [one, two, one]), one) == 2
  {
    UnitDrawn(chosen, [], one, one);
    UnitDrawn(chosen, [one], two, one);
    UnitDrawn(chosen, [one, two], one, one);
    hide Units, Drawn;
    assert [] + [one] == [one] && [one] + [two] == [one, two] && [one, two] + [one] == [one, two, one];
    assert Drawn(Units(chosen, true, []), one) == 0 by { NothingDrawn(chosen, one); }
  }

  lemma NothingDrawn<E>(chosen: E, e: E)
    ensures Drawn(Units(chosen, true, []), e) == 0
  {
  }

  /** Whenever two ids are linked more than once there are entities, all of them in order, that a round overdraws. */
  lemma AmbiguityOverdraws(priority: Priority, id1: string, id2: string)
    requires Links(priority, id1, id2) >= 2
    ensures var mk, vol := TwinMarket(priority, id1, id2), TwinVolumes();
            && Valid(mk, vol) && Candidates(mk, vol) != []
            && Drawn(RoundMatches(mk, vol), 1) == 2 && Volume(vol, 1) == 1
  {
    hide RoundRoutes, RoundMatches, Candidates, Neighbours, Twins, PairWith, Links, Units, Drawn, Share, SmallestShare,
         WithRoutes, Live, Valid;
    var mk, vol := TwinMarket(priority, id1, id2), TwinVolumes();
    var routes, links := RoundRoutes(mk, vol), Links(priority, id1, id2);
    TwinsAreValid(priority, id1, id2);
    TwinCandidates(priority, id1, id2);
    TwinRoutes(priority, id1, id2);
    TwinNeighbours(routes, links);
    FirstSmallest(Candidates(mk, vol), vol, routes);
    ServedAreNeighbours(mk, vol);
    TwinsStart(links);
    var zero: nat, one: nat, two: nat := 0, 1, 2;
    assert Chosen(mk, vol) == zero && ChosenIsFirst(mk, vol);
    assert Served(mk, vol) == Twins(links)[..4][..3] == [one, two, one];
    TwinUnits(zero, one, two);
  }

  /** A priority with one entry, whose one preference group lists an id twice. */
  const REPEATED_PREFERENCE: Priority := [[Entry("a", [["b", "b"]])]]

  /** Listing an id twice is enough: of two generators with one unit each, the first one gives two. */
  lemma RepeatedPreferenceOverdraws()
    ensures Links(REPEATED_PREFERENCE, "a", "b") == 2 && !Unambiguous(REPEATED_PREFERENCE)
    ensures var mk, vol := TwinMarket(REPEATED_PREFERENCE, "a", "b"), TwinVolumes();
            && Valid(mk, vol) && Candidates(mk, vol) != []
            && Drawn(RoundMatches(mk, vol), 1) == 2 && Volume(vol, 1) == 1
  {
    hide Valid, Candidates, RoundMatches, Drawn;
    var group := REPEATED_PREFERENCE[0];
    assert group[0].id == "a" && Lists(group, "a");
    assert group[..0] == [];
    assert "b" in group[0].preferences[0];
    assert Links(REPEATED_PREFERENCE, "a", "b") == GroupLinks(group, "a", "b") == EntryLinks(group[0], "a", "b") == 2;
    AmbiguityOverdraws(REPEATED_PREFERENCE, "a", "b");
  }

  ghost predicate NobodyOverdrawn(mk: Market<nat>, vol: map<nat, int>)
    requires Candidates(mk, vol) != []
  {
    forall e :: Drawn(RoundMatches(mk, vol), e) <= Volume(vol, e)
  }

  /**
   * The rounds of a priority overdraw nobody, whatever the entities and their volumes, exactly when it
   * is unambiguous.
   */
  lemma SafeExactlyWhenUnambiguous(priority: Priority)
    ensures Unambiguous(priority) <==>
            forall mk: Market<nat>, vol: map<nat, int> ::
              mk.priority == priority && Valid(mk, vol) && Candidates(mk, vol) != [] ==> NobodyOverdrawn(mk, vol)
  {
    hide Valid, Candidates, RoundMatches, Drawn, Links;
    if Unambiguous(priority) {
      forall mk: Market<nat>, vol: map<nat, int>
        | mk.priority == priority && Valid(mk, vol) && Candidates(mk, vol) != []
        ensures NobodyOverdrawn(mk, vol)
      {
        forall e ensures Drawn(RoundMatches(mk, vol), e) <= Volume(vol, e) {
          RoundIsSafe(mk, vol, e);
        }
      }
    } else {
      var id1, id2 :| Links(priority, id1, id2) > 1;
      AmbiguityOverdraws(priority, id1, id2);
      assert !NobodyOverdrawn(TwinMarket(priority, id1, id2), TwinVolumes());
    }
  }
}
