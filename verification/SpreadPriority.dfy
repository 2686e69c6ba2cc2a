/** Who is served before whom, and when the spread matcher stops. */
module SpreadPriority {
  import opened SpreadRound
  import opened SpreadRoundFacts
  import opened SpreadRoundSafety
  import opened SpreadRun

  ghost predicate AllEmpty<E>(es: seq<E>, ids: E -> string, vol: map<E, int>, id: string) {
    forall i :: 0 <= i < |es| && ids(es[i]) == id ==> Volume(vol, es[i]) == 0
  }

  ghost predicate GroupEmpty<E>(mk: Market<E>, vol: map<E, int>, group: seq<Entry>) {
    forall i :: 0 <= i < |group| ==> AllEmpty(mk.side1, mk.ids, vol, group[i].id)
  }

  ghost predicate IdsEmpty<E>(mk: Market<E>, vol: map<E, int>, group: seq<string>) {
    forall i :: 0 <= i < |group| ==> AllEmpty(mk.side2, mk.ids, vol, group[i])
  }

  /**
   * A match made for entry k of priority group j from its preference group p, while all consumers
   * of earlier priority groups and all generators of earlier preference groups of that entry are empty.
   */
  ghost predicate ServedInOrder<E>(mk: Market<E>, vol: map<E, int>, m: Match<E>, j: nat, k: nat, p: nat) {
    && j < |mk.priority| && k < |mk.priority[j]| && p < |mk.priority[j][k].preferences|
    && mk.ids(m.first) == mk.priority[j][k].id
    && mk.ids(m.second) in mk.priority[j][k].preferences[p]
    && (forall i :: 0 <= i < j ==> GroupEmpty(mk, vol, mk.priority[i]))
    && (forall i :: 0 <= i < p ==> IdsEmpty(mk, vol, mk.priority[j][k].preferences[i]))
  }

  lemma UnusableEntryIsEmpty<E>(mk: Market<E>, vol: map<E, int>, id: string)
    ensures Lookup(Groups1(mk, vol), id) == [] <==> AllEmpty(mk.side1, mk.ids, vol, id)
  {
    MarketLookup(mk, vol, id);
    if Lookup(Groups1(mk, vol), id) != [] {
      var e := Lookup(Groups1(mk, vol), id)[0];
      assert e in Lookup(Groups1(mk, vol), id);
      var i :| 0 <= i < |mk.side1| && mk.side1[i] == e;
    } else {
      forall i | 0 <= i < |mk.side1| && mk.ids(mk.side1[i]) == id ensures Volume(vol, mk.side1[i]) == 0 {
        assert mk.side1[i] in mk.side1;
      }
    }
  }

  lemma UnusableIdIsEmpty<E>(mk: Market<E>, vol: map<E, int>, id: string)
    ensures Lookup(Groups2(mk, vol), id) == [] <==> AllEmpty(mk.side2, mk.ids, vol, id)
  {
    MarketLookup(mk, vol, id);
    if Lookup(Groups2(mk, vol), id) != [] {
      var e := Lookup(Groups2(mk, vol), id)[0];
      assert e in Lookup(Groups2(mk, vol), id);
      var i :| 0 <= i < |mk.side2| && mk.side2[i] == e;
    } else {
      forall i | 0 <= i < |mk.side2| && mk.ids(mk.side2[i]) == id ensures Volume(vol, mk.side2[i]) == 0 {
        assert mk.side2[i] in mk.side2;
      }
    }
  }

  lemma UnusableGroupIsEmpty<E>(mk: Market<E>, vol: map<E, int>, group: seq<Entry>)
    ensures !AnyEntryUsable(group, Groups1(mk, vol)) <==> GroupEmpty(mk, vol, group)
  {
    hide Groups1, AllEmpty;
    forall i | 0 <= i < |group|
      ensures !EntryUsable(group[i], Groups1(mk, vol)) <==> AllEmpty(mk.side1, mk.ids, vol, group[i].id)
    {
      UnusableEntryIsEmpty(mk, vol, group[i].id);
    }
  }

  lemma UnusableIdsAreEmpty<E>(mk: Market<E>, vol: map<E, int>, group: seq<string>)
    ensures !AnyIdUsable(group, Groups2(mk, vol)) <==> IdsEmpty(mk, vol, group)
  {
    hide Groups2, AllEmpty;
    forall i | 0 <= i < |group|
      ensures !IdUsable(group[i], Groups2(mk, vol)) <==> AllEmpty(mk.side2, mk.ids, vol, group[i])
    {
      UnusableIdIsEmpty(mk, vol, group[i]);
    }
  }

  /** Strict priority within a round. */
  lemma RoundServesInOrder<E>(mk: Market<E>, vol: map<E, int>, m: Match<E>) returns (j: nat, k: nat, p: nat)
    requires Sound(mk, vol) && Candidates(mk, vol) != []
    requires m in RoundMatches(mk, vol)
    ensures ServedInOrder(mk, vol, m, j, k, p)
  {
    MatchesFollowRoutes(mk, vol, m);
    j, k, p := RouteOrigin(mk, vol, (m.first, m.second));
    forall i | 0 <= i < j ensures GroupEmpty(mk, vol, mk.priority[i]) {
      UnusableGroupIsEmpty(mk, vol, mk.priority[i]);
    }
    forall i | 0 <= i < p ensures IdsEmpty(mk, vol, mk.priority[j][k].preferences[i]) {
      UnusableIdsAreEmpty(mk, vol, mk.priority[j][k].preferences[i]);
    }
  }

  /** Strict priority over a whole run: whoever had to be served first ends with nothing left. */
  lemma MatchesServeInOrder<E>(mk: Market<E>, vol: map<E, int>, rounds: seq<seq<Match<E>>>, n: nat, m: Match<E>)
    returns (j: nat, k: nat, p: nat)
    requires Sound(mk, vol) && IsRun(mk, vol, rounds)
    requires n < |rounds| && m in rounds[n]
    ensures ServedInOrder(mk, State(vol, rounds), m, j, k, p)
  {
    hide State, Candidates, RoundMatches, Sound;
    var before, final := State(vol, rounds[..n]), State(vol, rounds);
    RunPrefix(mk, vol, rounds, n);
    RunSound(mk, vol, rounds[..n]);
    assert IsRound(mk, before, rounds[n]);
    j, k, p := RoundServesInOrder(mk, before, m);
    forall e ensures Volume(before, e) == 0 ==> Volume(final, e) == 0 {
      VolumesFall(mk, vol, rounds, n, e);
      RunConserves(mk, vol, rounds, e);
    }
  }

  lemma {:induction false} DrawnInFromMatch<E>(rounds: seq<seq<Match<E>>>, e: E) returns (n: nat, m: Match<E>)
    requires DrawnIn(rounds, e) != 0
    ensures n < |rounds| && m in rounds[n] && (m.first == e || m.second == e)
  {
    var last := |rounds| - 1;
    if Drawn(rounds[last], e) != 0 {
      DrawnFromMatch(rounds[last], e);
      n := last;
      m :| m in rounds[n] && (m.first == e || m.second == e);
    } else {
      n, m := DrawnInFromMatch(rounds[..last], e);
    }
  }

  /**
   * If a consumer listed in no group before j receives anything, all consumers of those groups end with
   * nothing left.
   */
  lemma EarlierGroupsEndEmpty<E>(mk: Market<E>, vol: map<E, int>, rounds: seq<seq<Match<E>>>, x: E, j: nat)
    requires Sound(mk, vol) && IsRun(mk, vol, rounds)
    requires x in mk.side1 && 0 < DrawnIn(rounds, x)
    requires j <= |mk.priority|
    requires forall i, k :: 0 <= i < j && 0 <= k < |mk.priority[i]| ==> mk.priority[i][k].id != mk.ids(x)
    ensures forall i :: 0 <= i < j ==> GroupEmpty(mk, State(vol, rounds), mk.priority[i])
  {
    var n, m := DrawnInFromMatch(rounds, x);
    RunPrefix(mk, vol, rounds, n);
    RunSound(mk, vol, rounds[..n]);
    assert IsRound(mk, State(vol, rounds[..n]), rounds[n]);
    MatchesFollowRoutes(mk, State(vol, rounds[..n]), m);
    var a, b, c := RouteOrigin(mk, State(vol, rounds[..n]), (m.first, m.second));
    var j', k', p' := MatchesServeInOrder(mk, vol, rounds, n, m);
  }

  // ----- stopping

  /** The first priority group that still has a consumer with volume. */
  ghost predicate FirstUnmet<E>(mk: Market<E>, vol: map<E, int>, j: nat) {
    && j < |mk.priority|
    && !GroupEmpty(mk, vol, mk.priority[j])
    && forall i :: 0 <= i < j ==> GroupEmpty(mk, vol, mk.priority[i])
  }

  ghost predicate NothingPreferredLeft<E>(mk: Market<E>, vol: map<E, int>, entry: Entry) {
    forall p :: 0 <= p < |entry.preferences| ==> IdsEmpty(mk, vol, entry.preferences[p])
  }

  /** Nobody in the first group with unmet demand can be served by any generator it lists. */
  ghost predicate Stuck<E>(mk: Market<E>, vol: map<E, int>) {
    forall j: nat, k: nat :: FirstUnmet(mk, vol, j) && k < |mk.priority[j]| ==>
      AllEmpty(mk.side1, mk.ids, vol, mk.priority[j][k].id) || NothingPreferredLeft(mk, vol, mk.priority[j][k])
  }

  lemma NothingPreferredIffNoneUsable<E>(mk: Market<E>, vol: map<E, int>, entry: Entry)
    ensures NothingPreferredLeft(mk, vol, entry) <==> Preferred(entry, Groups2(mk, vol)) == []
  {
    var p := FirstUsableIdsIsFirst(entry.preferences, Groups2(mk, vol));
    forall i | 0 <= i < |entry.preferences|
      ensures !AnyIdUsable(entry.preferences[i], Groups2(mk, vol)) <==> IdsEmpty(mk, vol, entry.preferences[i])
    {
      UnusableIdsAreEmpty(mk, vol, entry.preferences[i]);
    }
    if p < |entry.preferences| {
      var q :| 0 <= q < |entry.preferences[p]| && IdUsable(entry.preferences[p][q], Groups2(mk, vol));
      var g := Lookup(Groups2(mk, vol), entry.preferences[p][q])[0];
      EntitiesOfMembers(entry.preferences[p], Groups2(mk, vol));
      assert g in Lookup(Groups2(mk, vol), entry.preferences[p][q]);
      assert InGroup(entry.preferences[p], Groups2(mk, vol), g);
    }
  }

  /** The matcher stops exactly when the first group with unmet demand cannot be served at all. */
  lemma StopsExactlyWhenStuck<E>(mk: Market<E>, vol: map<E, int>)
    requires Valid(mk, vol)
    ensures RoundRoutes(mk, vol) == [] <==> Stuck(mk, vol)
  {
    hide AllEmpty, NothingPreferredLeft, EntryRoutes, Groups1, Groups2, GroupEmpty, AnyEntryUsable;
    var j := FirstUsableEntriesIsFirst(mk.priority, Groups1(mk, vol));
    forall i | 0 <= i < |mk.priority|
      ensures !AnyEntryUsable(mk.priority[i], Groups1(mk, vol)) <==> GroupEmpty(mk, vol, mk.priority[i])
    {
      UnusableGroupIsEmpty(mk, vol, mk.priority[i]);
    }
    GroupRoutesEmpty(mk, vol, FirstUsableEntries(mk.priority, Groups1(mk, vol)));
    assert j < |mk.priority| ==> FirstUnmet(mk, vol, j);
    assert forall i: nat :: FirstUnmet(mk, vol, i) ==> i == j;
  }

  lemma {:induction false} GroupRoutesEmpty<E>(mk: Market<E>, vol: map<E, int>, group: seq<Entry>)
    ensures EntryRoutes(group, Groups1(mk, vol), Groups2(mk, vol)) == [] <==>
            forall k :: 0 <= k < |group| ==>
              AllEmpty(mk.side1, mk.ids, vol, group[k].id) || NothingPreferredLeft(mk, vol, group[k])
  {
    hide AllEmpty, NothingPreferredLeft, Groups1, Groups2, Preferred, EntryRoutes, Lookup;
    var groups1, groups2 := Groups1(mk, vol), Groups2(mk, vol);
    var routes := EntryRoutes(group, groups1, groups2);
    EntryRoutesMembers(group, groups1, groups2);
    forall k | 0 <= k < |group|
      ensures AllEmpty(mk.side1, mk.ids, vol, group[k].id) <==> Lookup(groups1, group[k].id) == []
      ensures NothingPreferredLeft(mk, vol, group[k]) <==> Preferred(group[k], groups2) == []
    {
      UnusableEntryIsEmpty(mk, vol, group[k].id);
      NothingPreferredIffNoneUsable(mk, vol, group[k]);
    }
    if routes != [] {
      assert routes[0] in routes;
      assert RoutedInGroup(group, groups1, groups2, routes[0]);
      var k :| 0 <= k < |group| && RoutedBy(group[k], groups1, groups2, routes[0]);
    } else {
      forall k | 0 <= k < |group| ensures Lookup(groups1, group[k].id) == [] || Preferred(group[k], groups2) == [] {
        if Lookup(groups1, group[k].id) != [] && Preferred(group[k], groups2) != [] {
          SomeRoute(group, groups1, groups2, k);
        }
      }
    }
  }

  lemma SomeRoute<E>(group: seq<Entry>, groups1: Groups<E>, groups2: Groups<E>, k: nat)
    requires k < |group| && Lookup(groups1, group[k].id) != [] && Preferred(group[k], groups2) != []
    ensures EntryRoutes(group, groups1, groups2) != []
  {
    var r := (Lookup(groups1, group[k].id)[0], Preferred(group[k], groups2)[0]);
    EntryRoutesMembers(group, groups1, groups2);
    assert RoutedBy(group[k], groups1, groups2, r);
    assert RoutedInGroup(group, groups1, groups2, r);
  }
}
