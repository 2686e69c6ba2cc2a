/** The spread matcher itself: entities are objects whose volume and routes are updated in place. */
module SpreadMatcher {
  import opened Arithmetic
  import opened Sequences
  import opened SpreadRound
  import opened SpreadRoundFacts
  import opened SpreadRoundSafety
  import opened SpreadRun
  import opened SpreadTally

  const MAX_ROUNDS := 10_000

  /** What a caller passes in for one entity. */
  datatype EntityData = EntityData(id: string, volume: int)

  class Entity {
    const id: string
    var volume: int
    var routes: seq<Entity>

    constructor (data: EntityData)
      ensures id == data.id && volume == data.volume && routes == []
    {
      id := data.id;
      volume := data.volume;
      routes := [];
    }
  }

  datatype Result =
    | TooManyRounds
    | Matched(matches: seq<Match<Entity>>, roundMatches: seq<seq<Match<Entity>>>,
              leftover1: seq<Entity>, leftover2: seq<Entity>)

  function IdOf(e: Entity): string {
    e.id
  }

  /** The volumes of the entities are the ones recorded in vol. */
  ghost predicate Holds(es: seq<Entity>, vol: map<Entity, int>)
    reads es
  {
    forall e | e in es :: e in vol && e.volume == vol[e]
  }

  /** The clones the matcher works on: one new object for every entity passed in. */
  method CloneEntities(data: seq<EntityData>) returns (es: seq<Entity>)
    ensures |es| == |data| && NoDuplicates(es)
    ensures forall i :: 0 <= i < |es| ==> fresh(es[i]) && es[i].id == data[i].id && es[i].volume == data[i].volume
  {
    es := [];
    for i := 0 to |data|
      invariant |es| == i && NoDuplicates(es)
      invariant forall j :: 0 <= j < i ==> fresh(es[j]) && es[j].id == data[j].id && es[j].volume == data[j].volume
    {
      var e := new Entity(data[i]);
      es := es + [e];
    }
  }

  lemma LiveStep<E>(es: seq<E>, i: nat, vol: map<E, int>)
    requires i < |es|
    ensures Live(es[..i + 1], vol) == Live(es[..i], vol) + if Volume(vol, es[i]) == 0 then [] else [es[i]]
  {
    assert es[..i + 1][..i] == es[..i];
  }

  lemma GroupedStep<E>(ids: E -> string, es: seq<E>, e: E)
    ensures Grouped(ids, es + [e]) == Grouped(ids, es)[ids(e) := Lookup(Grouped(ids, es), ids(e)) + [e]]
  {
    assert (es + [e])[..|es|] == es;
  }

  method PrepareEntitiesForRoundInput(entities: seq<Entity>, ghost all: set<Entity>, ghost vol: map<Entity, int>)
    returns (grouped: Groups<Entity>, flat: seq<Entity>)
    requires Holds(entities, vol)
    requires forall e | e in entities :: e in all
    modifies all`routes
    ensures flat == Live(entities, vol)
    ensures grouped == Grouped(IdOf, flat)
    ensures forall e | e in flat :: e.routes == []
  {
    hide Live, Grouped, Lookup;
    grouped, flat := map[], [];
    assert flat == Live(entities[..0], vol) && grouped == Grouped(IdOf, flat) by { NothingPrepared(entities, vol); }
    for i := 0 to |entities|
      invariant flat == Live(entities[..i], vol)
      invariant grouped == Grouped(IdOf, flat)
      invariant forall e | e in flat :: e.routes == []
    {
      var entity := entities[i];
      LiveStep(entities, i, vol);
      assert entity in entities;
      if entity.volume != 0 {
        entity.routes := [];
        grouped := grouped[entity.id := Lookup(grouped, entity.id) + [entity]];
        GroupedStep(IdOf, flat, entity);
        flat := flat + [entity];
      }
    }
    assert entities[..|entities|] == entities;
  }

  lemma NothingPrepared(entities: seq<Entity>, vol: map<Entity, int>)
    ensures Live(entities[..0], vol) == [] && Grouped(IdOf, []) == map[]
  {
  }

  /** Every entity of es lists its neighbours. */
  ghost predicate ListsNeighbours(es: seq<Entity>, routes: seq<Route<Entity>>)
    reads es
  {
    forall e | e in es :: e.routes == Neighbours(routes, e)
  }

  function HavingRoutes(es: seq<Entity>): seq<Entity>
    reads es
  {
    if es == [] then []
    else
      var n := |es| - 1;
      HavingRoutes(es[..n]) + if es[n].routes == [] then [] else [es[n]]
  }

  lemma {:induction false} HavingRoutesIsWithRoutes(es: seq<Entity>, routes: seq<Route<Entity>>)
    requires ListsNeighbours(es, routes)
    ensures HavingRoutes(es) == WithRoutes(es, routes)
  {
    if es != [] {
      HavingRoutesIsWithRoutes(es[..|es| - 1], routes);
    }
  }

  /** Record every route at both its ends. */
  method RecordRoutes(routes: seq<Route<Entity>>, flat1: seq<Entity>, flat2: seq<Entity>,
                      ghost all1: set<Entity>, ghost all2: set<Entity>)
    requires Bipartite(routes, flat1, flat2)
    requires forall e | e in flat1 :: e.routes == [] && e in all1
    requires forall e | e in flat2 :: e.routes == [] && e in all2
    modifies all1`routes, all2`routes
    ensures ListsNeighbours(flat1, routes) && ListsNeighbours(flat2, routes)
  {
    for i := 0 to |routes|
      invariant ListsNeighbours(flat1, routes[..i]) && ListsNeighbours(flat2, routes[..i])
    {
      var entity1, entity2 := routes[i].0, routes[i].1;
      assert routes[..i + 1][..i] == routes[..i];
      entity1.routes := entity1.routes + [entity2];
      entity2.routes := entity2.routes + [entity1];
    }
    assert routes[..|routes|] == routes;
  }

  /** The routes of the next round, recorded at their ends, with the entities that take part in it. */
  method GetRoundInput(priority: Priority, entities1: seq<Entity>, entities2: seq<Entity>,
                       ghost all1: set<Entity>, ghost all2: set<Entity>,
                       ghost mk: Market<Entity>, ghost vol: map<Entity, int>)
    returns (routes: seq<Route<Entity>>, with1: seq<Entity>, with2: seq<Entity>, flat1: seq<Entity>, flat2: seq<Entity>)
    requires WellFormed(mk, vol) && mk.priority == priority && mk.ids == IdOf
    requires Holds(entities1, vol) && Holds(entities2, vol)
    requires Live(entities1, vol) == Live(mk.side1, vol) && Live(entities2, vol) == Live(mk.side2, vol)
    requires (forall e | e in entities1 :: e in all1) && (forall e | e in entities2 :: e in all2) && all1 !! all2
    modifies all1`routes, all2`routes
    ensures routes == RoundRoutes(mk, vol)
    ensures flat1 == Live(mk.side1, vol) && flat2 == Live(mk.side2, vol)
    ensures with1 == WithRoutes(flat1, routes) && with2 == WithRoutes(flat2, routes)
    ensures ListsNeighbours(with1 + with2, routes)
    ensures forall e | e in with1 + with2 :: e.routes != [] && (e in mk.side1 || e in mk.side2)
  {
    hide Live, Grouped, Lookup, Routes, Neighbours, WithRoutes;
    var grouped1, grouped2;
    grouped1, flat1 := PrepareEntitiesForRoundInput(entities1, all1, vol);
    grouped2, flat2 := PrepareEntitiesForRoundInput(entities2, all2, vol);
    forall e | e in flat1 ensures e in all1 && e in mk.side1 {
      LiveMember(entities1, vol, e);
      LiveMember(mk.side1, vol, e);
    }
    forall e | e in flat2 ensures e in all2 && e in mk.side2 {
      LiveMember(entities2, vol, e);
      LiveMember(mk.side2, vol, e);
    }
    routes := Routes(priority, grouped1, grouped2);
    RoutesBetweenLive(mk, vol);
    RecordRoutes(routes, flat1, flat2, all1, all2);
    with1, with2 := HavingRoutes(flat1), HavingRoutes(flat2);
    HavingRoutesIsWithRoutes(flat1, routes);
    HavingRoutesIsWithRoutes(flat2, routes);
    forall e | e in with1 + with2
      ensures e.routes == Neighbours(routes, e) && e.routes != [] && (e in mk.side1 || e in mk.side2)
    {
      WithRoutesMember(flat1, routes, e);
      WithRoutesMember(flat2, routes, e);
    }
  }

  lemma WithRoutesMember<E>(es: seq<E>, routes: seq<Route<E>>, e: E)
    ensures e in WithRoutes(es, routes) <==> e in es && Neighbours(routes, e) != []
  {
    WithRoutesMembers(es, routes);
  }

  lemma {:induction false} RoutesBetweenLive<E>(mk: Market<E>, vol: map<E, int>)
    requires WellFormed(mk, vol)
    ensures Bipartite(RoundRoutes(mk, vol), Live(mk.side1, vol), Live(mk.side2, vol))
    ensures RoundRoutes(mk, vol) != [] ==> Live(mk.side1, vol) != [] && Live(mk.side2, vol) != []
  {
    hide RoundRoutes, Live;
    var routes := RoundRoutes(mk, vol);
    RoundRoutesShape(mk, vol);
    LiveMembers(mk.side1, vol);
    LiveMembers(mk.side2, vol);
    forall e | e in Live(mk.side1, vol) ensures e !in Live(mk.side2, vol) {
      LiveMember(mk.side1, vol, e);
      LiveMember(mk.side2, vol, e);
    }
    forall i | 0 <= i < |routes|
      ensures routes[i].0 in Live(mk.side1, vol) && routes[i].1 in Live(mk.side2, vol)
    {
      assert routes[i] in routes;
    }
    if routes != [] {
      assert routes[0].0 in Live(mk.side1, vol) && routes[0].1 in Live(mk.side2, vol);
    }
  }

  lemma SmallestShareStep<E>(es: seq<E>, i: nat, vol: map<E, int>, routes: seq<Route<E>>)
    requires 0 < i < |es|
    ensures SmallestShare(es[..i + 1], vol, routes) ==
            if Share(vol, routes, es[i]) < Share(vol, routes, SmallestShare(es[..i], vol, routes)) then es[i]
            else SmallestShare(es[..i], vol, routes)
  {
    assert es[..i + 1][..i] == es[..i];
  }

  /** The first entity whose volume divided by the number of its routes is smallest. */
  method BigNumMinBy(collection: seq<Entity>, ghost routes: seq<Route<Entity>>, ghost vol: map<Entity, int>)
    returns (minItem: Entity)
    requires collection != [] && Holds(collection, vol) && ListsNeighbours(collection, routes)
    requires forall e | e in collection :: e.routes != []
    ensures minItem == SmallestShare(collection, vol, routes)
  {
    hide SmallestShare, Neighbours;
    minItem := collection[0];
    var minResult := Quotient(minItem.volume, |minItem.routes|);
    assert minItem == SmallestShare(collection[..1], vol, routes) by { SmallestShareOfOne(collection, vol, routes); }
    for i := 0 to |collection|
      invariant minItem in collection && minResult == Share(vol, routes, minItem)
      invariant minItem == SmallestShare(collection[..if i == 0 then 1 else i], vol, routes)
    {
      var currentResult := Quotient(collection[i].volume, |collection[i].routes|);
      assert currentResult == Share(vol, routes, collection[i]);
      if i > 0 {
        SmallestShareStep(collection, i, vol, routes);
      } else {
        assert minItem == collection[0] by { SmallestShareOfOne(collection, vol, routes); }
      }
      if currentResult < minResult {
        minItem := collection[i];
        minResult := currentResult;
      }
    }
    assert collection[..|collection|] == collection;
  }

  lemma SmallestShareOfOne<E>(es: seq<E>, vol: map<E, int>, routes: seq<Route<E>>)
    requires es != []
    ensures SmallestShare(es[..1], vol, routes) == es[0]
  {
  }

  method ComputeSafeDistribution(with1: seq<Entity>, with2: seq<Entity>,
                                 ghost routes: seq<Route<Entity>>, ghost vol: map<Entity, int>)
    returns (entity: Entity, volume: int)
    requires with1 + with2 != []
    requires Holds(with1 + with2, vol) && ListsNeighbours(with1 + with2, routes)
    requires forall e | e in with1 + with2 :: e.routes != []
    ensures entity == SmallestShare(with1 + with2, vol, routes)
    ensures volume == Share(vol, routes, entity)
  {
    entity := BigNumMinBy(with1 + with2, routes, vol);
    volume := Quotient(entity.volume, |entity.routes|);
  }

  method MatchRound(routes: seq<Route<Entity>>, with1: seq<Entity>, with2: seq<Entity>, ghost vol: map<Entity, int>)
    returns (ms: seq<Match<Entity>>)
    requires with1 + with2 != []
    requires Holds(with1 + with2, vol) && ListsNeighbours(with1 + with2, routes)
    requires forall e | e in with1 + with2 :: e.routes != []
    ensures ms == MatchesOf(routes, with1, with2, vol)
  {
    hide Neighbours, Uniform, Units, SmallestShare;
    var entity, volume := ComputeSafeDistribution(with1, with2, routes, vol);
    if volume == 0 {
      var isEntityFirst := entity in with1;
      var entitiesToSatisfy := Prefix(entity.routes, entity.volume);
      ms := Units(entity, isEntityFirst, entitiesToSatisfy);
    } else {
      ms := Uniform(routes, volume);
    }
  }

  /** Take the volumes of the matches away from both their entities. */
  method ApplyMatches(ms: seq<Match<Entity>>, ghost side1: seq<Entity>, ghost side2: seq<Entity>,
                      ghost all1: set<Entity>, ghost all2: set<Entity>, ghost vol: map<Entity, int>)
    requires Holds(side1, vol) && Holds(side2, vol)
    requires (forall e | e in side1 :: e in all1) && (forall e | e in side2 :: e in all2) && all1 !! all2
    requires forall i :: 0 <= i < |ms| ==> ms[i].first in side1 && ms[i].second in side2
    modifies all1`volume, all2`volume
    ensures Holds(side1, After(vol, ms)) && Holds(side2, After(vol, ms))
  {
    for i := 0 to |ms|
      invariant forall e | e in side1 :: e in vol && e.volume == vol[e] - Drawn(ms[..i], e)
      invariant forall e | e in side2 :: e in vol && e.volume == vol[e] - Drawn(ms[..i], e)
    {
      var entity1, entity2 := ms[i].first, ms[i].second;
      assert ms[..i + 1][..i] == ms[..i];
      entity1.volume := entity1.volume - ms[i].volume;
      entity2.volume := entity2.volume - ms[i].volume;
    }
    assert ms[..|ms|] == ms;
  }

  method SumMatches(ms: seq<Match<Entity>>) returns (r: seq<Match<Entity>>)
    ensures r == Unwind(Tally(ms))
  {
    var matchMap: Table<Entity> := [];
    for i := 0 to |ms|
      invariant matchMap == Tally(ms[..i])
    {
      matchMap := AddMatch(matchMap, ms[i]);
      assert ms[..i + 1][..i] == ms[..i];
    }
    assert ms[..|ms|] == ms;
    r := Unwind(matchMap);
  }

  // ----- the whole matcher

  lemma {:induction false} LiveOfLive<E>(es: seq<E>, vol: map<E, int>, vol': map<E, int>)
    requires forall e :: Volume(vol, e) == 0 ==> Volume(vol', e) == 0
    ensures Live(Live(es, vol), vol') == Live(es, vol')
  {
    if es != [] {
      var n := |es| - 1;
      LiveOfLive(es[..n], vol, vol');
      if Volume(vol, es[n]) != 0 {
        assert Live(es, vol)[..|Live(es[..n], vol)|] == Live(es[..n], vol);
      } else {
        assert Live(es, vol) == Live(es[..n], vol);
      }
    }
  }

  /** The clones of the caller's data, and their volumes, as a market. */
  ghost predicate MarketOf(mk: Market<Entity>, vol: map<Entity, int>, priority: Priority,
                           data1: seq<EntityData>, data2: seq<EntityData>) {
    && WellFormed(mk, vol) && mk.priority == priority && mk.ids == IdOf
    && (forall e | e in vol :: e in mk.side1 || e in mk.side2)
    && |mk.side1| == |data1| && |mk.side2| == |data2|
    && (forall i :: 0 <= i < |data1| ==> mk.side1[i].id == data1[i].id && vol[mk.side1[i]] == data1[i].volume)
    && (forall i :: 0 <= i < |data2| ==> mk.side2[i].id == data2[i].id && vol[mk.side2[i]] == data2[i].volume)
  }

  /** The entities with a positive volume, in their original order. */
  function Leftover<E(==)>(es: seq<E>, vol: map<E, int>): seq<E> {
    if es == [] then []
    else
      var n := |es| - 1;
      Leftover(es[..n], vol) + if Volume(vol, es[n]) > 0 then [es[n]] else []
  }

  lemma {:induction false} LeftoverMembers<E>(es: seq<E>, vol: map<E, int>)
    ensures forall e :: e in Leftover(es, vol) <==> e in es && 0 < Volume(vol, e)
  {
    if es != [] {
      var n := |es| - 1;
      LeftoverMembers(es[..n], vol);
      assert es == es[..n] + [es[n]];
    }
  }

  /** Where no volume is negative, exactly the live entities are left over. */
  lemma {:induction false} LeftoverIsLive<E>(es: seq<E>, vol: map<E, int>)
    requires forall e | e in es :: 0 <= Volume(vol, e)
    ensures Leftover(es, vol) == Live(es, vol)
  {
    if es != [] {
      LeftoverIsLive(es[..|es| - 1], vol);
    }
  }

  lemma {:induction false} LeftoverOfLive<E>(es: seq<E>, vol: map<E, int>)
    ensures Leftover(Live(es, vol), vol) == Leftover(es, vol)
  {
    if es != [] {
      var n := |es| - 1;
      LeftoverOfLive(es[..n], vol);
      if Volume(vol, es[n]) != 0 {
        assert Live(es, vol)[..|Live(es[..n], vol)|] == Live(es[..n], vol);
      } else {
        assert Live(es, vol) == Live(es[..n], vol);
      }
    }
  }

  /** What the result says about a run that came to its end. */
  ghost predicate Summarises(mk: Market<Entity>, vol: map<Entity, int>, r: Result)
    requires r.Matched?
  {
    var final := State(vol, r.roundMatches);
    && IsRun(mk, vol, r.roundMatches)
    && RoundRoutes(mk, final) == []
    && r.matches == Unwind(Tally(Flat(r.roundMatches)))
    && r.leftover1 == Leftover(mk.side1, final) && r.leftover2 == Leftover(mk.side2, final)
  }

  lemma StateOfNoRounds<E>(vol: map<E, int>)
    ensures State(vol, []) == vol
  {
  }

  /** The entities with volume left, as the matcher reports them. */
  function WithVolume(es: seq<Entity>): seq<Entity>
    reads es
  {
    if es == [] then []
    else
      var n := |es| - 1;
      WithVolume(es[..n]) + if es[n].volume > 0 then [es[n]] else []
  }

  lemma {:induction false} WithVolumeIsLeftover(es: seq<Entity>, vol: map<Entity, int>)
    requires Holds(es, vol)
    ensures WithVolume(es) == Leftover(es, vol)
  {
    if es != [] {
      WithVolumeIsLeftover(es[..|es| - 1], vol);
    }
  }

  /** The entities still in play are members of the market, and all of its live ones. */
  ghost predicate InPlay(es: seq<Entity>, side: seq<Entity>, vol: map<Entity, int>) {
    (forall e | e in es :: e in side) && Live(es, vol) == Live(side, vol)
  }

  lemma InPlayAfter(es: seq<Entity>, side: seq<Entity>, vol: map<Entity, int>, vol': map<Entity, int>)
    requires es == Live(side, vol)
    requires forall e :: Volume(vol, e) == 0 ==> Volume(vol', e) == 0
    ensures InPlay(es, side, vol')
  {
    LiveOfLive(side, vol, vol');
    forall e | e in es ensures e in side { LiveMember(side, vol, e); }
  }

  /** One pass through the loop: nothing is played when there are no routes. */
  method PlayRound(priority: Priority, groups1: seq<Entity>, groups2: seq<Entity>,
                   ghost mk: Market<Entity>, ghost vol: map<Entity, int>)
    returns (played: bool, ms: seq<Match<Entity>>, flat1: seq<Entity>, flat2: seq<Entity>)
    requires WellFormed(mk, vol) && mk.priority == priority && mk.ids == IdOf
    requires Holds(mk.side1, vol) && Holds(mk.side2, vol)
    requires InPlay(groups1, mk.side1, vol) && InPlay(groups2, mk.side2, vol)
    modifies set e | e in mk.side1, set e | e in mk.side2
    ensures played <==> RoundRoutes(mk, vol) != []
    ensures !played ==> Holds(mk.side1, vol) && Holds(mk.side2, vol)
    ensures played ==>
              && IsRound(mk, vol, ms) && WellFormed(mk, After(vol, ms))
              && Holds(mk.side1, After(vol, ms)) && Holds(mk.side2, After(vol, ms))
              && InPlay(flat1, mk.side1, After(vol, ms)) && InPlay(flat2, mk.side2, After(vol, ms))
  {
    hide Live, RoundMatches, RoundRoutes, Neighbours, WithRoutes, After;
    ghost var all1, all2 := set e | e in mk.side1, set e | e in mk.side2;
    var routes, with1, with2;
    routes, with1, with2, flat1, flat2 := GetRoundInput(priority, groups1, groups2, all1, all2, mk, vol);
    RoutesGiveCandidates(mk, vol);
    played, ms := |routes| != 0, [];
    if played {
      assert with1 + with2 == Candidates(mk, vol);
      ms := MatchRound(routes, with1, with2, vol);
      assert IsRound(mk, vol, ms) by { RoundMatchesOf(mk, vol); }
      forall i | 0 <= i < |ms| ensures ms[i].first in mk.side1 && ms[i].second in mk.side2 {
        assert ms[i] in RoundMatches(mk, vol);
        MatchesFollowRoutes(mk, vol, ms[i]);
        var j, k, p := RouteOrigin(mk, vol, (ms[i].first, ms[i].second));
      }
      ApplyMatches(ms, mk.side1, mk.side2, all1, all2, vol);
      StaysWellFormed(mk, vol, ms);
      forall e | Volume(vol, e) == 0 ensures Volume(After(vol, ms), e) == 0 {
        EmptyStaysEmpty(mk, vol, e);
      }
      InPlayAfter(flat1, mk.side1, vol, After(vol, ms));
      InPlayAfter(flat2, mk.side2, vol, After(vol, ms));
    }
  }

  lemma EmptyStaysEmpty<E>(mk: Market<E>, vol: map<E, int>, e: E)
    requires WellFormed(mk, vol) && Candidates(mk, vol) != [] && Volume(vol, e) == 0
    ensures Volume(After(vol, RoundMatches(mk, vol)), e) == 0
  {
    hide WellFormed, RoundMatches, Candidates;
    NothingFromNothing(mk, vol, e);
  }

  lemma StaysWellFormed<E>(mk: Market<E>, vol: map<E, int>, ms: seq<Match<E>>)
    requires WellFormed(mk, vol)
    ensures WellFormed(mk, After(vol, ms))
  {
  }

  lemma RoundMatchesOf<E>(mk: Market<E>, vol: map<E, int>)
    requires Candidates(mk, vol) != []
    ensures RoundMatches(mk, vol) ==
            MatchesOf(RoundRoutes(mk, vol), WithRoutes(Live(mk.side1, vol), RoundRoutes(mk, vol)),
                      WithRoutes(Live(mk.side2, vol), RoundRoutes(mk, vol)), vol)
  {
    hide Live, RoundRoutes, WithRoutes, MatchesOf;
  }

  /** A run that is cut off because it has played as many rounds as are allowed. */
  ghost predicate Endless(mk: Market<Entity>, vol: map<Entity, int>, rounds: seq<seq<Match<Entity>>>) {
    IsRun(mk, vol, rounds) && |rounds| == 10_000
  }

  ghost predicate NoneNegative(data: seq<EntityData>) {
    forall i :: 0 <= i < |data| ==> 0 <= data[i].volume
  }

  /** The clones of data without negative volumes are what the theorems about runs ask for. */
  lemma MarketIsSound(mk: Market<Entity>, vol: map<Entity, int>, priority: Priority,
                      data1: seq<EntityData>, data2: seq<EntityData>)
    requires MarketOf(mk, vol, priority, data1, data2)
    requires Unambiguous(priority) && NoneNegative(data1) && NoneNegative(data2)
    ensures Sound(mk, vol)
  {
    hide WellFormed;
    forall e | e in vol ensures 0 <= vol[e] {
      if e in mk.side1 {
        var i :| 0 <= i < |mk.side1| && mk.side1[i] == e;
      } else {
        var i :| 0 <= i < |mk.side2| && mk.side2[i] == e;
      }
    }
  }

  lemma MarketSize(mk: Market<Entity>, vol: map<Entity, int>, priority: Priority,
                   data1: seq<EntityData>, data2: seq<EntityData>)
    requires MarketOf(mk, vol, priority, data1, data2)
    ensures |mk.side1| == |data1| && |mk.side2| == |data2|
  {
  }

  method SpreadMatcher(priority: Priority, data1: seq<EntityData>, data2: seq<EntityData>)
    returns (r: Result, ghost mk: Market<Entity>, ghost vol: map<Entity, int>)
    ensures MarketOf(mk, vol, priority, data1, data2)
    ensures r.Matched? ==> Summarises(mk, vol, r) && |r.roundMatches| < 10_000
    ensures r.Matched? ==>
              Holds(mk.side1, State(vol, r.roundMatches)) && Holds(mk.side2, State(vol, r.roundMatches))
    ensures !r.Matched? ==> exists rounds :: Endless(mk, vol, rounds)
    ensures Unambiguous(priority) && NoneNegative(data1) && NoneNegative(data2) ==>
              |data1| + |data2| < 5_000 ==> r.Matched?
  {
    hide State, Live, RoundMatches, RoundRoutes, After, IsRound;
    var entities1 := CloneEntities(data1);
    var entities2 := CloneEntities(data2);
    mk := Market(priority, IdOf, entities1, entities2);
    vol := map e: Entity | e in entities1 + entities2 :: e.volume;
    var groups1, groups2 := entities1, entities2;
    var rounds: seq<seq<Match<Entity>>> := [];
    var i := 0;
    ghost var now := vol;
    assert State(vol, rounds) == vol by { StateOfNoRounds(vol); }
    assert WellFormed(mk, now) && MarketOf(mk, vol, priority, data1, data2) && IsRun(mk, vol, rounds);
    hide WellFormed, Valid, MarketOf, Unambiguous, NoneNegative;
    while true
      invariant IsRun(mk, vol, rounds) && now == State(vol, rounds) && WellFormed(mk, now)
      invariant 0 <= i == |rounds| <= MAX_ROUNDS
      invariant Holds(mk.side1, now) && Holds(mk.side2, now)
      invariant InPlay(groups1, mk.side1, now) && InPlay(groups2, mk.side2, now)
      decreases MAX_ROUNDS - i
    {
      i := i + 1;
      if i > MAX_ROUNDS {
        assert Endless(mk, vol, rounds);
        if Unambiguous(priority) && NoneNegative(data1) && NoneNegative(data2) {
          MarketIsSound(mk, vol, priority, data1, data2);
          RoundBound(mk, vol, rounds);
          assert |rounds| <= 2 * (|data1| + |data2|) by { MarketSize(mk, vol, priority, data1, data2); }
        }
        return TooManyRounds, mk, vol;
      }
      if |groups1| == 0 || |groups2| == 0 {
        LiveIsShorter(groups1, now);
        LiveIsShorter(groups2, now);
        RoutesBetweenLive(mk, now);
        break;
      }
      var played, ms, flat1, flat2 := PlayRound(priority, groups1, groups2, mk, now);
      if !played {
        break;
      }
      RunExtends(mk, vol, rounds, ms);
      rounds := rounds + [ms];
      groups1, groups2 := flat1, flat2;
      now := After(now, ms);
    }
    var matches := SumMatches(Flat(rounds));
    WithVolumeIsLeftover(groups1, now);
    WithVolumeIsLeftover(groups2, now);
    LeftoverInPlay(groups1, mk.side1, now);
    LeftoverInPlay(groups2, mk.side2, now);
    r := Matched(matches, rounds, WithVolume(groups1), WithVolume(groups2));
  }

  lemma LeftoverInPlay(es: seq<Entity>, side: seq<Entity>, vol: map<Entity, int>)
    requires InPlay(es, side, vol)
    ensures Leftover(es, vol) == Leftover(side, vol)
  {
    LeftoverOfLive(es, vol);
    LeftoverOfLive(side, vol);
  }
}
