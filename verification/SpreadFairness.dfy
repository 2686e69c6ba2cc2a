/** Entities of equal standing are used up nearly equally over a whole run of the spread matcher. */
module SpreadFairness {
  import opened SpreadRound
  import opened SpreadRoundFacts
  import opened SpreadRoundSafety
  import opened SpreadRun
  import opened SpreadNeighbours

  // ----- two entities that the other side treats alike

  /** Two entities of one side; the others are those of the opposite side. */
  ghost predicate Opposite<E>(mk: Market<E>, x: E, y: E, others: seq<E>) {
    && x != y
    && ((x in mk.side1 && y in mk.side1 && others == mk.side2)
        || (x in mk.side2 && y in mk.side2 && others == mk.side1))
  }

  /** The two entities have the same neighbours, and every neighbour lists x ahead of y. */
  ghost predicate SeenAlike<E>(mk: Market<E>, vol: map<E, int>, x: E, y: E, others: seq<E>) {
    && Neighbours(RoundRoutes(mk, vol), x) == Neighbours(RoundRoutes(mk, vol), y)
    && forall c | c in others :: Ahead(Neighbours(RoundRoutes(mk, vol), c), x, y)
  }

  /** In one round x gets as much as y, or one unit more from an opposite entity that the round empties. */
  lemma RoundIsFair<E>(mk: Market<E>, vol: map<E, int>, x: E, y: E, others: seq<E>)
    requires Sound(mk, vol) && Candidates(mk, vol) != []
    requires Opposite(mk, x, y, others) && SeenAlike(mk, vol, x, y, others)
    requires Drawn(RoundMatches(mk, vol), x) < Volume(vol, x)
    requires Drawn(RoundMatches(mk, vol), y) < Volume(vol, y)
    ensures 0 <= Drawn(RoundMatches(mk, vol), x) - Drawn(RoundMatches(mk, vol), y)
              <= |Live(others, vol)| - |Live(others, After(vol, RoundMatches(mk, vol)))|
  {
    hide RoundMatches, Candidates, Neighbours, Drawn, RoundRoutes, Live, After, Served, Ahead;
    var vol', c := After(vol, RoundMatches(mk, vol)), Chosen(mk, vol);
    RoundKeepsValid(mk, vol);
    LiveShrinks(others, vol, vol');
    if SafeAmount(mk, vol) != 0 {
      UniformRound(mk, vol, x);
      UniformRound(mk, vol, y);
    } else {
      UnitRound(mk, vol, x);
      UnitRound(mk, vol, y);
      UnitRound(mk, vol, c);
      ServedInOrderOfStanding(mk, vol, x, y, others);
    }
  }

  lemma ServedInOrderOfStanding<E>(mk: Market<E>, vol: map<E, int>, x: E, y: E, others: seq<E>)
    requires Sound(mk, vol) && Candidates(mk, vol) != [] && SafeAmount(mk, vol) == 0
    requires Opposite(mk, x, y, others) && SeenAlike(mk, vol, x, y, others)
    ensures y in Served(mk, vol) ==> x in Served(mk, vol)
    ensures x in Served(mk, vol) ==> Chosen(mk, vol) in others
  {
    hide RoundMatches, Neighbours, RoundRoutes;
    var c := Chosen(mk, vol);
    ServedAreNeighbours(mk, vol);
    forall o | o in Served(mk, vol) && (o == x || o == y) ensures c in others {
      assert o in Neighbours(RoundRoutes(mk, vol), c);
      EndOfRoute(mk, vol, c, o);
    }
    if y in Served(mk, vol) {
      AheadPrefix(Neighbours(RoundRoutes(mk, vol), c), Volume(vol, c), x, y);
    }
  }

  /** Whoever is seen alike in all rounds and ends with volume left is drawn from alike over the run. */
  lemma {:induction false} SeenAlikeIsFair<E>(mk: Market<E>, vol: map<E, int>, rounds: seq<seq<Match<E>>>, x: E, y: E,
                                              others: seq<E>)
    requires Sound(mk, vol) && IsRun(mk, vol, rounds) && Opposite(mk, x, y, others)
    requires forall k :: 0 <= k < |rounds| ==> SeenAlike(mk, State(vol, rounds[..k]), x, y, others)
    requires 0 < Volume(State(vol, rounds), x) && 0 < Volume(State(vol, rounds), y)
    ensures 0 <= DrawnIn(rounds, x) - DrawnIn(rounds, y) <= |Live(others, vol)| - |Live(others, State(vol, rounds))|
  {
    hide RoundMatches, Candidates, Drawn, Live, Sound, SeenAlike, Opposite, Volume, After;
    if rounds != [] {
      var n := |rounds| - 1;
      var before := State(vol, rounds[..n]);
      RunPrefix(mk, vol, rounds, n);
      RunSound(mk, vol, rounds[..n]);
      assert IsRound(mk, before, rounds[n]);
      RoundKeepsValid(mk, before);
      VolumesFall(mk, vol, rounds, n, x);
      VolumesFall(mk, vol, rounds, n, y);
      forall k | 0 <= k < n ensures SeenAlike(mk, State(vol, rounds[..n][..k]), x, y, others) {
        assert rounds[..n][..k] == rounds[..k];
      }
      SeenAlikeIsFair(mk, vol, rounds[..n], x, y, others);
      RoundIsFair(mk, before, x, y, others);
    }
  }

  /** Every state of a run is sound and leaves at least as much as the last one. */
  lemma StateInRun<E>(mk: Market<E>, vol: map<E, int>, rounds: seq<seq<Match<E>>>, k: nat, x: E, y: E)
    requires Sound(mk, vol) && IsRun(mk, vol, rounds) && k <= |rounds|
    ensures Sound(mk, State(vol, rounds[..k]))
    ensures Volume(State(vol, rounds), x) <= Volume(State(vol, rounds[..k]), x)
    ensures Volume(State(vol, rounds), y) <= Volume(State(vol, rounds[..k]), y)
  {
    RunPrefix(mk, vol, rounds, k);
    RunSound(mk, vol, rounds[..k]);
    VolumesFall(mk, vol, rounds, k, x);
    VolumesFall(mk, vol, rounds, k, y);
  }

  // ----- consumers

  /** The ids are either both missing from the group, or listed in this order with the same preferences. */
  ghost predicate ListedAlike(group: seq<Entry>, idx: string, idy: string) {
    || (forall i :: 0 <= i < |group| ==> group[i].id != idx && group[i].id != idy)
    || exists a, b :: ListedAt(group, idx, idy, a, b)
  }

  ghost predicate ListedAt(group: seq<Entry>, idx: string, idy: string, a: int, b: int) {
    && 0 <= a <= b < |group| && group[a].id == idx && group[b].id == idy
    && group[a].preferences == group[b].preferences
  }

  /** Two consumers that every priority group treats alike, x being the earlier one; no group repeats an id. */
  ghost predicate EqualStanding<E>(mk: Market<E>, x: E, y: E) {
    && DistinctIds(mk.priority)
    && x in mk.side1 && y in mk.side1 && x != y
    && (forall g :: 0 <= g < |mk.priority| ==> ListedAlike(mk.priority[g], mk.ids(x), mk.ids(y)))
    && (mk.ids(x) == mk.ids(y) ==> Ahead(mk.side1, x, y))
  }

  /** An entity of the second side sees x ahead of y when their entries stand alike. */
  lemma {:induction false} SeenInOrder<E>(ids: E -> string, group: seq<Entry>, groups1: Groups<E>, groups2: Groups<E>,
                                          x: E, y: E, a: int, b: int, c: E)
    requires GroupInput(ids, group, groups1, groups2)
    requires x in Lookup(groups1, ids(x)) && y in Lookup(groups1, ids(y))
    requires forall id :: c !in Lookup(groups1, id)
    requires ListedAt(group, ids(x), ids(y), a, b)
    requires ids(x) == ids(y) ==> Ahead(Lookup(groups1, ids(x)), x, y)
    ensures Ahead(Neighbours(EntryRoutes(group, groups1, groups2), c), x, y)
  {
    hide EntryRoutes, Preferred, Lookup, GroupInput, Neighbours;
    var n := |group| - 1;
    var before := Neighbours(EntryRoutes(group[..n], groups1, groups2), c);
    var firsts := Lookup(groups1, group[n].id);
    SplitLast(ids, group, groups1, groups2, c);
    WellGroupedInput(ids, group, groups1, groups2);
    if b < n {
      SeenInOrder(ids, group[..n], groups1, groups2, x, y, a, b, c);
      NotUnderOtherId(ids, groups1, group[n].id, y);
      AheadAppend(before, firsts, x, y);
      AheadAppend(before, [], x, y);
    } else {
      NotSeenBefore(ids, group[..n], groups1, groups2, y, c);
      if c in Preferred(group[n], groups2) {
        if a < n {
          PreferredAlike(group[a], group[n], groups2);
          SeenThrough(group[..n], groups1, groups2, x, a, c);
        }
        AheadAppend(before, firsts, x, y);
      }
    }
  }

  lemma PreferredAlike<E>(a: Entry, b: Entry, groups2: Groups<E>)
    requires a.preferences == b.preferences
    ensures Preferred(a, groups2) == Preferred(b, groups2)
  {
  }

  lemma NotSeenBefore<E>(ids: E -> string, group: seq<Entry>, groups1: Groups<E>, groups2: Groups<E>, y: E, c: E)
    requires WellGrouped(ids, groups1)
    requires y in Lookup(groups1, ids(y))
    requires forall id :: c !in Lookup(groups1, id)
    requires forall i :: 0 <= i < |group| ==> group[i].id != ids(y)
    ensures y !in Neighbours(EntryRoutes(group, groups1, groups2), c)
  {
    NeighboursMembers(EntryRoutes(group, groups1, groups2), c);
    EntryRoutesMembers(group, groups1, groups2);
    forall i | 0 <= i < |group|
      ensures !RoutedBy(group[i], groups1, groups2, (y, c)) && !RoutedBy(group[i], groups1, groups2, (c, y))
    {
      NotUnderOtherId(ids, groups1, group[i].id, y);
    }
  }

  lemma SeenThrough<E>(group: seq<Entry>, groups1: Groups<E>, groups2: Groups<E>, x: E, a: int, c: E)
    requires 0 <= a < |group|
    requires x in Lookup(groups1, group[a].id) && c in Preferred(group[a], groups2)
    ensures x in Neighbours(EntryRoutes(group, groups1, groups2), c)
  {
    NeighboursMembers(EntryRoutes(group, groups1, groups2), c);
    EntryRoutesMembers(group, groups1, groups2);
    assert RoutedBy(group[a], groups1, groups2, (x, c));
    assert RoutedInGroup(group, groups1, groups2, (x, c));
  }

  /** Consumers of equal standing that both have volume share their neighbours, which see x ahead of y. */
  lemma EqualStandingNeighbours<E>(mk: Market<E>, vol: map<E, int>, x: E, y: E)
    requires Sound(mk, vol) && EqualStanding(mk, x, y)
    requires 0 < Volume(vol, x) && 0 < Volume(vol, y)
    ensures SeenAlike(mk, vol, x, y, mk.side2)
  {
    hide Neighbours, EntryRoutes, Groups1, Groups2, Lookup, GroupInput;
    var groups1, groups2 := Groups1(mk, vol), Groups2(mk, vol);
    var group := FirstUsableEntries(mk.priority, groups1);
    MarketInput(mk, vol);
    MarketLookup(mk, vol, mk.ids(x));
    MarketLookup(mk, vol, mk.ids(y));
    var j := FirstUsableEntriesIsFirst(mk.priority, groups1);
    if a, b :| ListedAt(group, mk.ids(x), mk.ids(y), a, b) {
      NeighboursOfMember(mk.ids, group, groups1, groups2, x, a);
      NeighboursOfMember(mk.ids, group, groups1, groups2, y, b);
      PreferredAlike(group[a], group[b], groups2);
      forall c | c in mk.side2 ensures Ahead(Neighbours(RoundRoutes(mk, vol), c), x, y) {
        SeenInOrderByGenerator(mk, vol, x, y, a, b, c);
      }
    } else {
      assert forall i :: 0 <= i < |group| ==> group[i].id != mk.ids(x) && group[i].id != mk.ids(y);
      NeighboursOfUnlisted(mk.ids, group, groups1, groups2, x);
      NeighboursOfUnlisted(mk.ids, group, groups1, groups2, y);
      forall c | c in mk.side2 ensures Ahead(Neighbours(RoundRoutes(mk, vol), c), x, y) {
        MarketLookupNot(mk, vol, c);
        NotSeenByGenerator(mk, vol, group, y, c);
      }
    }
  }

  lemma NotSeenByGenerator<E>(mk: Market<E>, vol: map<E, int>, group: seq<Entry>, y: E, c: E)
    requires Sound(mk, vol) && DistinctIds(mk.priority) && group == FirstUsableEntries(mk.priority, Groups1(mk, vol))
    requires y in Lookup(Groups1(mk, vol), mk.ids(y))
    requires forall id :: c !in Lookup(Groups1(mk, vol), id)
    requires forall i :: 0 <= i < |group| ==> group[i].id != mk.ids(y)
    ensures y !in Neighbours(RoundRoutes(mk, vol), c)
  {
    MarketInput(mk, vol);
    NotSeenBefore(mk.ids, group, Groups1(mk, vol), Groups2(mk, vol), y, c);
  }

  lemma MarketLookupNot<E>(mk: Market<E>, vol: map<E, int>, c: E)
    requires Sound(mk, vol) && c in mk.side2
    ensures forall id :: c !in Lookup(Groups1(mk, vol), id)
  {
    forall id ensures c !in Lookup(Groups1(mk, vol), id) { MarketLookup(mk, vol, id); }
  }

  lemma SeenInOrderByGenerator<E>(mk: Market<E>, vol: map<E, int>, x: E, y: E, a: int, b: int, c: E)
    requires Sound(mk, vol) && EqualStanding(mk, x, y) && c in mk.side2
    requires 0 < Volume(vol, x) && 0 < Volume(vol, y)
    requires ListedAt(FirstUsableEntries(mk.priority, Groups1(mk, vol)), mk.ids(x), mk.ids(y), a, b)
    ensures Ahead(Neighbours(RoundRoutes(mk, vol), c), x, y)
  {
    hide Neighbours, EntryRoutes, Groups2, Lookup, GroupInput;
    var groups1, groups2 := Groups1(mk, vol), Groups2(mk, vol);
    MarketInput(mk, vol);
    MarketLookup(mk, vol, mk.ids(x));
    MarketLookup(mk, vol, mk.ids(y));
    MarketLookupNot(mk, vol, c);
    if mk.ids(x) == mk.ids(y) {
      AheadLive(mk.side1, vol, x, y);
      AheadGrouped(mk.ids, Live(mk.side1, vol), x, y);
    }
    SeenInOrder(mk.ids, FirstUsableEntries(mk.priority, groups1), groups1, groups2, x, y, a, b, c);
  }

  /**
   * Bounded fairness: of two consumers of equal standing that both end with volume left, the
   * earlier one never receives less, and it receives at most one unit more for every generator
   * that the run has emptied.
   */
  lemma RunIsFair<E>(mk: Market<E>, vol: map<E, int>, rounds: seq<seq<Match<E>>>, x: E, y: E)
    requires Sound(mk, vol) && IsRun(mk, vol, rounds) && EqualStanding(mk, x, y)
    requires 0 < Volume(State(vol, rounds), x) && 0 < Volume(State(vol, rounds), y)
    ensures 0 <= DrawnIn(rounds, x) - DrawnIn(rounds, y) <= |Live(mk.side2, vol)| - |Live(mk.side2, State(vol, rounds))|
    ensures DrawnIn(rounds, x) - DrawnIn(rounds, y) <= |mk.side2|
  {
    hide Live, State, IsRun, SeenAlike, Sound, DrawnIn;
    assert Opposite(mk, x, y, mk.side2);
    hide EqualStanding, Opposite;
    forall k | 0 <= k < |rounds| ensures SeenAlike(mk, State(vol, rounds[..k]), x, y, mk.side2) {
      StateInRun(mk, vol, rounds, k, x, y);
      EqualStandingNeighbours(mk, State(vol, rounds[..k]), x, y);
    }
    SeenAlikeIsFair(mk, vol, rounds, x, y, mk.side2);
    LiveIsShorter(mk.side2, vol);
  }

  // ----- generators

  /** The group lists both ids or neither, and the first one first. */
  ghost predicate ListedInOrder(group: seq<string>, id1: string, id2: string) {
    && (id1 in group ==> id2 in group)
    && forall b :: 0 <= b < |group| && group[b] == id2 ==> id1 in group[..b + 1]
  }

  ghost predicate PreferredAsOne(entry: Entry, id1: string, id2: string) {
    forall p :: 0 <= p < |entry.preferences| ==> ListedInOrder(entry.preferences[p], id1, id2)
  }

  /** Two generators that every preference group treats alike, g being the earlier one; no group repeats an id. */
  ghost predicate EqualPreference<E>(mk: Market<E>, g: E, h: E) {
    && DistinctIds(mk.priority)
    && g in mk.side2 && h in mk.side2 && g != h
    && (forall j, k :: 0 <= j < |mk.priority| && 0 <= k < |mk.priority[j]| ==>
          PreferredAsOne(mk.priority[j][k], mk.ids(g), mk.ids(h)))
    && (mk.ids(g) == mk.ids(h) ==> Ahead(mk.side2, g, h))
  }

  ghost predicate BothGrouped<E>(ids: E -> string, groups: Groups<E>, g: E, h: E) {
    && WellGrouped(ids, groups)
    && g in Lookup(groups, ids(g)) && h in Lookup(groups, ids(h))
    && (ids(g) == ids(h) ==> Ahead(Lookup(groups, ids(g)), g, h))
  }

  lemma GroupedUnderId<E>(ids: E -> string, group: seq<string>, groups: Groups<E>, e: E)
    requires WellGrouped(ids, groups) && e in Lookup(groups, ids(e))
    ensures e in EntitiesOf(group, groups) <==> ids(e) in group
  {
    hide WellGrouped, EntitiesOf;
    EntitiesOfMembers(group, groups);
    if InGroup(group, groups, e) {
      var i :| 0 <= i < |group| && e in Lookup(groups, group[i]);
      UnderOwnId(ids, groups, group[i], e);
    }
  }

  lemma {:induction false} EntitiesInOrder<E>(ids: E -> string, group: seq<string>, groups: Groups<E>, g: E, h: E)
    requires BothGrouped(ids, groups, g, h)
    requires forall b :: 0 <= b < |group| && group[b] == ids(h) ==> ids(g) in group[..b + 1]
    ensures Ahead(EntitiesOf(group, groups), g, h)
  {
    hide Lookup, Ahead, BothGrouped;
    if group == [] {
      NeverListed(EntitiesOf(group, groups), g, h);
    } else {
      var n := |group| - 1;
      forall b | 0 <= b < n && group[..n][b] == ids(h) ensures ids(g) in group[..n][..b + 1] {
        assert group[..n][..b + 1] == group[..b + 1];
      }
      EntitiesInOrder(ids, group[..n], groups, g, h);
      LastInOrder(ids, group, groups, g, h);
      AheadAppend(EntitiesOf(group[..n], groups), Lookup(groups, group[n]), g, h);
    }
  }

  lemma LastInOrder<E>(ids: E -> string, group: seq<string>, groups: Groups<E>, g: E, h: E)
    requires BothGrouped(ids, groups, g, h) && group != []
    requires group[|group| - 1] == ids(h) ==> ids(g) in group[..|group|]
    ensures var n := |group| - 1; g in EntitiesOf(group[..n], groups) || Ahead(Lookup(groups, group[n]), g, h)
  {
    hide Lookup, Ahead, EntitiesOf, WellGrouped;
    var n := |group| - 1;
    if group[n] != ids(h) {
      NotUnderOtherId(ids, groups, group[n], h);
      NeverListed(Lookup(groups, group[n]), g, h);
    } else if ids(g) != ids(h) {
      assert group[..n + 1] == group[..n] + [group[n]];
      GroupedUnderId(ids, group[..n], groups, g);
    }
  }

  lemma NeverListed<E>(s: seq<E>, x: E, y: E)
    requires y !in s
    ensures Ahead(s, x, y)
  {
  }

  /** An entry prefers both generators or neither, and lists them in their order. */
  lemma PreferredInOrder<E>(ids: E -> string, entry: Entry, groups2: Groups<E>, g: E, h: E)
    requires BothGrouped(ids, groups2, g, h) && PreferredAsOne(entry, ids(g), ids(h))
    ensures g in Preferred(entry, groups2) <==> h in Preferred(entry, groups2)
    ensures Ahead(Preferred(entry, groups2), g, h)
  {
    hide Lookup, WellGrouped, EntitiesOf, FirstUsableIds, Ahead;
    var p := FirstUsableIdsIsFirst(entry.preferences, groups2);
    var group := FirstUsableIds(entry.preferences, groups2);
    assert ListedInOrder(group, ids(g), ids(h));
    GroupedUnderId(ids, group, groups2, g);
    GroupedUnderId(ids, group, groups2, h);
    EntitiesInOrder(ids, group, groups2, g, h);
    if ids(h) in group {
      var b :| 0 <= b < |group| && group[b] == ids(h);
      assert ids(g) in group[..b + 1];
    }
  }

  /** Two generators that are always preferred together meet the same consumers in the same order. */
  lemma {:induction false} SameConsumers<E>(ids: E -> string, group: seq<Entry>, groups1: Groups<E>, groups2: Groups<E>,
                                            g: E, h: E)
    requires GroupInput(ids, group, groups1, groups2)
    requires forall id :: g !in Lookup(groups1, id) && h !in Lookup(groups1, id)
    requires forall k :: 0 <= k < |group| ==> (g in Preferred(group[k], groups2) <==> h in Preferred(group[k], groups2))
    ensures Neighbours(EntryRoutes(group, groups1, groups2), g) == Neighbours(EntryRoutes(group, groups1, groups2), h)
  {
    if group != [] {
      hide EntryRoutes, Preferred, Lookup, GroupInput, Neighbours;
      var n := |group| - 1;
      SplitLast(ids, group, groups1, groups2, g);
      SplitLast(ids, group, groups1, groups2, h);
      SameConsumers(ids, group[..n], groups1, groups2, g, h);
    } else {
      NoNeighbours(groups1, groups2, g);
      NoNeighbours(groups1, groups2, h);
    }
  }

  lemma NoNeighbours<E>(groups1: Groups<E>, groups2: Groups<E>, e: E)
    ensures Neighbours(EntryRoutes([], groups1, groups2), e) == []
  {
  }

  /** A consumer lists g ahead of h. */
  lemma SeenInOrderByConsumer<E>(mk: Market<E>, vol: map<E, int>, g: E, h: E, c: E)
    requires Sound(mk, vol) && DistinctIds(mk.priority) && c in mk.side1
    requires var group := FirstUsableEntries(mk.priority, Groups1(mk, vol));
             forall k :: 0 <= k < |group| ==> Ahead(Preferred(group[k], Groups2(mk, vol)), g, h)
    ensures Ahead(Neighbours(RoundRoutes(mk, vol), c), g, h)
  {
    hide Neighbours, EntryRoutes, Groups1, Groups2, Lookup, GroupInput, Preferred;
    var groups1, groups2 := Groups1(mk, vol), Groups2(mk, vol);
    var group := FirstUsableEntries(mk.priority, groups1);
    if Neighbours(RoundRoutes(mk, vol), c) != [] {
      EndOfRoute(mk, vol, c, Neighbours(RoundRoutes(mk, vol), c)[0]);
      MarketInput(mk, vol);
      MarketLookup(mk, vol, mk.ids(c));
      if a :| 0 <= a < |group| && group[a].id == mk.ids(c) {
        NeighboursOfMember(mk.ids, group, groups1, groups2, c, a);
      } else {
        NeighboursOfUnlisted(mk.ids, group, groups1, groups2, c);
      }
    }
  }

  /** Generators of equal preference that both have volume share their neighbours, which see g ahead of h. */
  lemma EqualPreferenceNeighbours<E>(mk: Market<E>, vol: map<E, int>, g: E, h: E)
    requires Sound(mk, vol) && EqualPreference(mk, g, h)
    requires 0 < Volume(vol, g) && 0 < Volume(vol, h)
    ensures SeenAlike(mk, vol, g, h, mk.side1)
  {
    hide Neighbours, EntryRoutes, Groups1, Lookup, GroupInput, Preferred, WellGrouped, Ahead, PreferredAsOne;
    var groups1, groups2 := Groups1(mk, vol), Groups2(mk, vol);
    var group := FirstUsableEntries(mk.priority, groups1);
    MarketInput(mk, vol);
    MarketGroups(mk, vol);
    MarketLookup(mk, vol, mk.ids(g));
    MarketLookup(mk, vol, mk.ids(h));
    if mk.ids(g) == mk.ids(h) {
      AheadLive(mk.side2, vol, g, h);
      AheadGrouped(mk.ids, Live(mk.side2, vol), g, h);
    }
    var j := FirstUsableEntriesIsFirst(mk.priority, groups1);
    forall k | 0 <= k < |group|
      ensures (g in Preferred(group[k], groups2) <==> h in Preferred(group[k], groups2))
      ensures Ahead(Preferred(group[k], groups2), g, h)
    {
      PreferredInOrder(mk.ids, mk.priority[j][k], groups2, g, h);
    }
    forall id ensures g !in Lookup(groups1, id) && h !in Lookup(groups1, id) { MarketLookup(mk, vol, id); }
    SameConsumers(mk.ids, group, groups1, groups2, g, h);
    forall c | c in mk.side1 ensures Ahead(Neighbours(RoundRoutes(mk, vol), c), g, h) {
      SeenInOrderByConsumer(mk, vol, g, h, c);
    }
  }

  /**
   * The same for generators: of two generators of equal preference that both end with volume left, the
   * earlier one is never used less, and it is used at most one unit more for every consumer that the run
   * has satisfied.
   */
  lemma RunIsFairToGenerators<E>(mk: Market<E>, vol: map<E, int>, rounds: seq<seq<Match<E>>>, g: E, h: E)
    requires Sound(mk, vol) && IsRun(mk, vol, rounds) && EqualPreference(mk, g, h)
    requires 0 < Volume(State(vol, rounds), g) && 0 < Volume(State(vol, rounds), h)
    ensures 0 <= DrawnIn(rounds, g) - DrawnIn(rounds, h) <= |Live(mk.side1, vol)| - |Live(mk.side1, State(vol, rounds))|
    ensures DrawnIn(rounds, g) - DrawnIn(rounds, h) <= |mk.side1|
  {
    hide Live, State, IsRun, SeenAlike, Sound, DrawnIn;
    assert Opposite(mk, g, h, mk.side1);
    hide EqualPreference, Opposite;
    forall k | 0 <= k < |rounds| ensures SeenAlike(mk, State(vol, rounds[..k]), g, h, mk.side1) {
      StateInRun(mk, vol, rounds, k, g, h);
      EqualPreferenceNeighbours(mk, State(vol, rounds[..k]), g, h);
    }
    SeenAlikeIsFair(mk, vol, rounds, g, h, mk.side1);
    LiveIsShorter(mk.side1, vol);
  }
}
