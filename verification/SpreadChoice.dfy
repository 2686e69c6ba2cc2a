/** Which entity decides about a round, by the places of the entities in their lists, and what follows for a run. */
module SpreadChoice {
  import opened Arithmetic
  import opened SpreadRound
  import opened SpreadRoundFacts
  import opened SpreadRoundSafety
  import opened SpreadRun
  import opened SpreadNeighbours
  import opened SpreadFairness

  // ----- the entities that measure a round, in the order of the lists

  ghost predicate Measured<E>(vol: map<E, int>, routes: seq<Route<E>>, e: E) {
    Volume(vol, e) != 0 && Neighbours(routes, e) != []
  }

  ghost function Ends<E>(es: seq<E>, vol: map<E, int>, routes: seq<Route<E>>): seq<E> {
    WithRoutes(Live(es, vol), routes)
  }

  lemma EndsAppend<E>(es: seq<E>, e: E, vol: map<E, int>, routes: seq<Route<E>>)
    ensures Ends(es + [e], vol, routes) == Ends(es, vol, routes) + if Measured(vol, routes, e) then [e] else []
  {
    assert (es + [e])[..|es|] == es;
    var live := Live(es, vol);
    assert live + [] == live && (live + [e])[..|live|] == live;
  }

  lemma EndsEmpty<E>(vol: map<E, int>, routes: seq<Route<E>>)
    ensures Ends([], vol, routes) == []
  {
  }

  lemma {:induction false} EndsConcat<E>(es: seq<E>, fs: seq<E>, vol: map<E, int>, routes: seq<Route<E>>)
    ensures Ends(es + fs, vol, routes) == Ends(es, vol, routes) + Ends(fs, vol, routes)
  {
    hide Ends, Measured;
    if fs == [] {
      assert es + fs == es;
      EndsEmpty(vol, routes);
    } else {
      var n := |fs| - 1;
      EndsConcat(es, fs[..n], vol, routes);
      EndsAppend(es + fs[..n], fs[n], vol, routes);
      EndsAppend(fs[..n], fs[n], vol, routes);
      assert fs == fs[..n] + [fs[n]];
      assert es + fs == es + fs[..n] + [fs[n]];
    }
  }

  /** An entity has the smallest share of all that measure the round, and is the first such one in the list. */
  ghost predicate FirstSmallest<E>(es: seq<E>, vol: map<E, int>, routes: seq<Route<E>>, p: nat) {
    && p < |es| && Measured(vol, routes, es[p])
    && (forall q :: 0 <= q < |es| && Measured(vol, routes, es[q]) ==>
          Share(vol, routes, es[p]) <= Share(vol, routes, es[q]))
    && (forall q :: 0 <= q < p && Measured(vol, routes, es[q]) ==>
          Share(vol, routes, es[p]) < Share(vol, routes, es[q]))
  }

  lemma SmallestAppend<E>(es: seq<E>, e: E, vol: map<E, int>, routes: seq<Route<E>>)
    ensures SmallestShare(es + [e], vol, routes) ==
            if es == [] || Share(vol, routes, e) < Share(vol, routes, SmallestShare(es, vol, routes)) then e
            else SmallestShare(es, vol, routes)
  {
    assert (es + [e])[..|es|] == es;
  }

  lemma FirstSmallestAppend<E>(es: seq<E>, e: E, vol: map<E, int>, routes: seq<Route<E>>, first: nat) returns (p: nat)
    requires FirstSmallest(es, vol, routes, first)
    ensures p < |es + [e]| && FirstSmallest(es + [e], vol, routes, p)
    ensures (es + [e])[p] == if Measured(vol, routes, e) && Share(vol, routes, e) < Share(vol, routes, es[first]) then e
                             else es[first]
  {
    hide Share, Measured;
    p := if Measured(vol, routes, e) && Share(vol, routes, e) < Share(vol, routes, es[first]) then |es| else first;
  }

  lemma {:induction false} SmallestIsFirst<E>(es: seq<E>, vol: map<E, int>, routes: seq<Route<E>>) returns (p: nat)
    requires Ends(es, vol, routes) != []
    ensures p < |es| && FirstSmallest(es, vol, routes, p)
    ensures es[p] == SmallestShare(Ends(es, vol, routes), vol, routes)
  {
    hide Ends, Share, Measured, SmallestShare, FirstSmallest;
    assert es != [] by { EndsEmpty(vol, routes); }
    var n := |es| - 1;
    var before := Ends(es[..n], vol, routes);
    assert es == es[..n] + [es[n]];
    EndsAppend(es[..n], es[n], vol, routes);
    SmallestAppend(before, es[n], vol, routes);
    if before == [] {
      p := n;
      OnlyMeasured(es[..n], es[n], vol, routes);
    } else {
      var first := SmallestIsFirst(es[..n], vol, routes);
      assert es[..n][first] == SmallestShare(before, vol, routes);
      p := FirstSmallestAppend(es[..n], es[n], vol, routes, first);
      assert before + [] == before;
    }
  }

  lemma OnlyMeasured<E>(es: seq<E>, e: E, vol: map<E, int>, routes: seq<Route<E>>)
    requires Ends(es, vol, routes) == [] && Measured(vol, routes, e)
    ensures FirstSmallest(es + [e], vol, routes, |es|)
  {
    NoneMeasured(es, vol, routes);
    hide Ends, Share, Measured;
  }

  lemma {:induction false} NoneMeasured<E>(es: seq<E>, vol: map<E, int>, routes: seq<Route<E>>)
    requires Ends(es, vol, routes) == []
    ensures forall q :: 0 <= q < |es| ==> !Measured(vol, routes, es[q])
  {
    if es != [] {
      var n := |es| - 1;
      assert es == es[..n] + [es[n]];
      EndsAppend(es[..n], es[n], vol, routes);
      NoneMeasured(es[..n], vol, routes);
    }
  }

  lemma MeasuredHasRoute<E>(mk: Market<E>, vol: map<E, int>, e: E)
    requires WellFormed(mk, vol)
    ensures Measured(vol, RoundRoutes(mk, vol), e) <==> 0 < Degree(mk, vol, e)
  {
    if Neighbours(RoundRoutes(mk, vol), e) != [] {
      EndOfRoute(mk, vol, e, Neighbours(RoundRoutes(mk, vol), e)[0]);
    }
  }

  /** The chosen entity is the first with the smallest share, in the consumers followed by the generators. */
  lemma ChosenStandsFirst<E>(mk: Market<E>, vol: map<E, int>) returns (p: nat)
    requires WellFormed(mk, vol) && Candidates(mk, vol) != []
    ensures FirstSmallest(mk.side1 + mk.side2, vol, RoundRoutes(mk, vol), p)
    ensures (mk.side1 + mk.side2)[p] == Chosen(mk, vol)
  {
    EndsConcat(mk.side1, mk.side2, vol, RoundRoutes(mk, vol));
    hide RoundRoutes, SmallestShare, WithRoutes, Live;
    p := SmallestIsFirst(mk.side1 + mk.side2, vol, RoundRoutes(mk, vol));
  }

  // ----- the matches of a round

  lemma QuotientSign(a: int, n: nat)
    requires 0 < n
    ensures Quotient(a, n) < 0 <==> a + n <= 0
    ensures Quotient(a, n) > 0 <==> n <= a
  {
    if 0 <= a {
      QuotientBounds(a, n);
      if n <= a { QuotientIsLargest(a, n, 1); }
    } else {
      QuotientBounds(-a, n);
      if n <= -a { QuotientIsLargest(-a, n, 1); }
    }
  }

  ghost function Sides<E>(mk: Market<E>): seq<E> {
    mk.side1 + mk.side2
  }

  /** The share of an entity with a route is positive, or negative, when it has that much for each route. */
  lemma ShareByDegree<E>(mk: Market<E>, vol: map<E, int>, e: E)
    requires WellFormed(mk, vol)
    ensures Measured(vol, RoundRoutes(mk, vol), e) <==> 0 < Degree(mk, vol, e)
    ensures 0 < Degree(mk, vol, e) ==>
              && e in Sides(mk) && e in vol
              && (Share(vol, RoundRoutes(mk, vol), e) < 0 <==> Volume(vol, e) + Degree(mk, vol, e) <= 0)
              && (Share(vol, RoundRoutes(mk, vol), e) > 0 <==> Degree(mk, vol, e) <= Volume(vol, e))
  {
    hide RoundRoutes, Neighbours;
    MeasuredHasRoute(mk, vol, e);
    if 0 < Degree(mk, vol, e) {
      QuotientSign(Volume(vol, e), Degree(mk, vol, e));
      EndOfRoute(mk, vol, e, Neighbours(RoundRoutes(mk, vol), e)[0]);
    }
  }

  /** One unit from the chosen entity to each of the others, in their order, as far as its volume goes. */
  ghost predicate UnitsTo<E>(chosen: E, isFirst: bool, others: seq<E>, volume: int, ms: seq<Match<E>>) {
    && -|others| < volume < |others|
    && |ms| == (if volume < 0 then |others| + volume else volume)
    && forall i :: 0 <= i < |ms| ==>
         ms[i] == if isFirst then Match(chosen, others[i], 1) else Match(others[i], chosen, 1)
  }

  /** An entity at a place of the lists, with less volume than routes, before which there is none. */
  ghost predicate FirstLow<E>(mk: Market<E>, vol: map<E, int>, p: nat) {
    && p < |Sides(mk)|
    && Volume(vol, Sides(mk)[p]) < Degree(mk, vol, Sides(mk)[p]) && 0 < Degree(mk, vol, Sides(mk)[p])
    && forall q :: 0 <= q < p && 0 < Degree(mk, vol, Sides(mk)[q]) ==>
         Degree(mk, vol, Sides(mk)[q]) <= Volume(vol, Sides(mk)[q])
  }

  lemma UnitMatches<E>(mk: Market<E>, vol: map<E, int>, isFirst: bool)
    requires WellFormed(mk, vol) && Candidates(mk, vol) != [] && SafeAmount(mk, vol) == 0
    requires ChosenIsFirst(mk, vol) == isFirst
    requires var c := Chosen(mk, vol); -(Degree(mk, vol, c) as int) < Volume(vol, c) < Degree(mk, vol, c)
    ensures UnitsTo(Chosen(mk, vol), isFirst, Neighbours(RoundRoutes(mk, vol), Chosen(mk, vol)),
                    Volume(vol, Chosen(mk, vol)), RoundMatches(mk, vol))
  {
    RoundMatchesCases(mk, vol);
    UnitsShape(Chosen(mk, vol), ChosenIsFirst(mk, vol), Served(mk, vol));
    hide RoundRoutes, Neighbours, RoundMatches, Candidates, Chosen, ChosenIsFirst, SafeAmount, WellFormed, Units;
  }

  lemma SideOfChosen<E>(mk: Market<E>, vol: map<E, int>, p: nat)
    requires WellFormed(mk, vol) && Candidates(mk, vol) != []
    requires p < |Sides(mk)| && Sides(mk)[p] == Chosen(mk, vol)
    ensures ChosenIsFirst(mk, vol) <==> p < |mk.side1|
  {
    hide RoundRoutes, Neighbours, WithRoutes, Live, Candidates;
    var c, routes := Chosen(mk, vol), RoundRoutes(mk, vol);
    CandidateHasRoute(mk, vol, c);
    WithRoutesMembers(Live(mk.side1, vol), routes);
    LiveMember(mk.side1, vol, c);
    assert p < |mk.side1| ==> c == mk.side1[p];
    assert p >= |mk.side1| ==> c == mk.side2[p - |mk.side1|];
  }

  /**
   * When some entity has less volume than routes, a round serves one unit at a time: the first such entity,
   * in the consumers followed by the generators, gives one unit to each of its neighbours in their order
   * for as long as its volume lasts. A negative volume, short of a unit for each route, leaves out that many
   * of the last neighbours.
   */
  lemma UnitRoundServesFirst<E>(mk: Market<E>, vol: map<E, int>, e: E) returns (p: nat)
    requires WellFormed(mk, vol)
    requires forall o | o in vol :: 0 < Degree(mk, vol, o) ==> 0 < Volume(vol, o) + Degree(mk, vol, o)
    requires 0 < Degree(mk, vol, e) && Volume(vol, e) < Degree(mk, vol, e)
    ensures Candidates(mk, vol) != []
    ensures FirstLow(mk, vol, p)
    ensures UnitsTo(Sides(mk)[p], p < |mk.side1|, Neighbours(RoundRoutes(mk, vol), Sides(mk)[p]),
                    Volume(vol, Sides(mk)[p]), RoundMatches(mk, vol))
  {
    hide RoundRoutes, Neighbours, RoundMatches, Candidates, Chosen, Measured, Share, UnitsTo, ChosenIsFirst;
    CandidateHasRoute(mk, vol, e);
    p := ChosenStandsFirst(mk, vol);
    ShareByDegree(mk, vol, e);
    var all, routes := Sides(mk), RoundRoutes(mk, vol);
    forall q | 0 <= q < |all| ensures Measured(vol, routes, all[q]) <==> 0 < Degree(mk, vol, all[q]) {
      ShareByDegree(mk, vol, all[q]);
    }
    var k :| 0 <= k < |all| && all[k] == e;
    assert Share(vol, routes, all[p]) <= Share(vol, routes, all[k]) <= 0;
    ShareByDegree(mk, vol, all[p]);
    forall q | 0 <= q < p && 0 < Degree(mk, vol, all[q]) ensures Degree(mk, vol, all[q]) <= Volume(vol, all[q]) {
      ShareByDegree(mk, vol, all[q]);
    }
    SideOfChosen(mk, vol, p);
    UnitMatches(mk, vol, p < |mk.side1|);
  }

  /** What is at least an amount, and what is at most that amount, when it is a quotient cut off towards zero. */
  predicate AtLeast(amount: int, volume: int, degree: nat) {
    if 0 < amount then amount * degree <= volume else (amount - 1) * degree < volume
  }

  predicate AtMost(amount: int, volume: int, degree: nat) {
    if 0 < amount then volume < (amount + 1) * degree else volume <= amount * degree
  }

  lemma QuotientBetween(a: int, n: nat, amount: int)
    requires 0 < n && amount != 0
    ensures amount <= Quotient(a, n) ==> AtLeast(amount, a, n)
    ensures amount == Quotient(a, n) ==> AtMost(amount, a, n)
  {
    var q := Quotient(a, n);
    QuotientSign(a, n);
    if 0 <= a { QuotientBounds(a, n); } else { QuotientBounds(-a, n); }
    if 0 < amount <= q { MulMonotone(amount, q, n); }
    if amount < 0 && amount <= q { MulMonotone(amount - 1, if q < 0 then q - 1 else -1, n); }
    assert q < 0 ==> (q - 1) * n == -((-q + 1) * n) && q * n == -(-q * n);
  }

  /** The amount is the smallest quotient of volume and routes, cut off towards zero. */
  ghost predicate SmallestQuotient<E>(mk: Market<E>, vol: map<E, int>, amount: int) {
    && (forall e | e in vol :: 0 < Degree(mk, vol, e) ==> AtLeast(amount, Volume(vol, e), Degree(mk, vol, e)))
    && exists e | e in vol :: 0 < Degree(mk, vol, e) && AtMost(amount, Volume(vol, e), Degree(mk, vol, e))
  }

  /**
   * When every entity has a unit for each of its routes, or some entity lacks that much, a round moves
   * one amount along every route, in their order: the smallest quotient of volume and routes.
   */
  lemma UniformRoundCarries<E>(mk: Market<E>, vol: map<E, int>) returns (amount: int)
    requires WellFormed(mk, vol) && RoundRoutes(mk, vol) != []
    requires || (forall e | e in vol :: 0 < Degree(mk, vol, e) ==> Degree(mk, vol, e) <= Volume(vol, e))
             || exists e | e in vol :: 0 < Degree(mk, vol, e) && Volume(vol, e) + Degree(mk, vol, e) <= 0
    ensures Candidates(mk, vol) != [] && amount != 0 && SmallestQuotient(mk, vol, amount)
    ensures var routes, ms := RoundRoutes(mk, vol), RoundMatches(mk, vol);
            |ms| == |routes| && forall i :: 0 <= i < |ms| ==> ms[i] == Match(routes[i].0, routes[i].1, amount)
  {
    hide RoundRoutes, Neighbours, RoundMatches, Candidates, Chosen, Measured, Share, ChosenIsFirst, Units, Served,
         AtLeast, AtMost;
    RoutesGiveCandidates(mk, vol);
    var p := ChosenStandsFirst(mk, vol);
    amount := SafeAmount(mk, vol);
    var all, routes := Sides(mk), RoundRoutes(mk, vol);
    assert amount == Share(vol, routes, all[p]);
    ShareByDegree(mk, vol, all[p]);
    if e :| e in vol && 0 < Degree(mk, vol, e) && Volume(vol, e) + Degree(mk, vol, e) <= 0 {
      ShareAtLeast(mk, vol, p, e);
      ShareByDegree(mk, vol, e);
    }
    forall e | e in vol && 0 < Degree(mk, vol, e) ensures AtLeast(amount, Volume(vol, e), Degree(mk, vol, e)) {
      ShareAtLeast(mk, vol, p, e);
      ShareIsBetween(mk, vol, e, amount);
    }
    ShareIsBetween(mk, vol, all[p], amount);
    RoundMatchesCases(mk, vol);
    UniformShape(routes, amount);
  }

  lemma ShareAtLeast<E>(mk: Market<E>, vol: map<E, int>, p: nat, e: E)
    requires WellFormed(mk, vol) && FirstSmallest(Sides(mk), vol, RoundRoutes(mk, vol), p) && 0 < Degree(mk, vol, e)
    ensures Share(vol, RoundRoutes(mk, vol), Sides(mk)[p]) <= Share(vol, RoundRoutes(mk, vol), e)
  {
    hide RoundRoutes, Neighbours, Measured, Share;
    ShareByDegree(mk, vol, e);
    var k :| 0 <= k < |Sides(mk)| && Sides(mk)[k] == e;
  }

  lemma ShareIsBetween<E>(mk: Market<E>, vol: map<E, int>, e: E, amount: int)
    requires 0 < Degree(mk, vol, e) && amount != 0
    ensures amount <= Share(vol, RoundRoutes(mk, vol), e) ==> AtLeast(amount, Volume(vol, e), Degree(mk, vol, e))
    ensures amount == Share(vol, RoundRoutes(mk, vol), e) ==> AtMost(amount, Volume(vol, e), Degree(mk, vol, e))
  {
    hide RoundRoutes, Neighbours;
    QuotientBetween(Volume(vol, e), Degree(mk, vol, e), amount);
  }

  // ----- of two entities that are treated alike, the one that stands first is used up first

  /** The first of them is not the one with more volume, and this stays so. */
  lemma RoundKeepsOrder<E>(mk: Market<E>, vol: map<E, int>, x: E, y: E, others: seq<E>)
    requires Sound(mk, vol) && Candidates(mk, vol) != []
    requires Opposite(mk, x, y, others) && SeenAlike(mk, vol, x, y, others) && Ahead(Sides(mk), x, y)
    requires 0 < Volume(vol, x) <= Volume(vol, y)
    ensures Volume(After(vol, RoundMatches(mk, vol)), x) <= Volume(After(vol, RoundMatches(mk, vol)), y)
  {
    hide RoundMatches, Candidates, Neighbours, Drawn, RoundRoutes, After, Served, Ahead, Chosen;
    RoundKeepsValid(mk, vol);
    if SafeAmount(mk, vol) != 0 {
      UniformRound(mk, vol, x);
      UniformRound(mk, vol, y);
    } else {
      UnitRound(mk, vol, x);
      UnitRound(mk, vol, y);
      ServedInOrderOfStanding(mk, vol, x, y, others);
      LaterIsNotChosen(mk, vol, x, y, others);
    }
  }

  lemma LaterIsNotChosen<E>(mk: Market<E>, vol: map<E, int>, x: E, y: E, others: seq<E>)
    requires Sound(mk, vol) && Candidates(mk, vol) != [] && SafeAmount(mk, vol) == 0
    requires SeenAlike(mk, vol, x, y, others) && Ahead(Sides(mk), x, y)
    requires 0 < Volume(vol, x) <= Volume(vol, y)
    ensures Chosen(mk, vol) != y
  {
    hide RoundMatches, Candidates, Neighbours, RoundRoutes, Chosen, Measured, Share;
    var all, routes := Sides(mk), RoundRoutes(mk, vol);
    var p := ChosenStandsFirst(mk, vol);
    ShareByDegree(mk, vol, x);
    ShareByDegree(mk, vol, y);
    assert forall q :: 0 <= q < p && Measured(vol, routes, all[q]) ==> Share(vol, routes, all[q]) > 0;
  }

  /** The same over a run in which the two are treated alike for as long as both have volume. */
  lemma {:induction false} RunKeepsOrder<E>(mk: Market<E>, vol: map<E, int>, rounds: seq<seq<Match<E>>>, x: E, y: E,
                                            others: seq<E>)
    requires Sound(mk, vol) && IsRun(mk, vol, rounds) && Opposite(mk, x, y, others) && Ahead(Sides(mk), x, y)
    requires forall k | 0 <= k < |rounds| ::
               0 < Volume(State(vol, rounds[..k]), x) && 0 < Volume(State(vol, rounds[..k]), y) ==>
                 SeenAlike(mk, State(vol, rounds[..k]), x, y, others)
    requires Volume(vol, x) <= Volume(vol, y)
    ensures Volume(State(vol, rounds), x) <= Volume(State(vol, rounds), y)
  {
    hide RoundMatches, Candidates, Sound, SeenAlike, Opposite, Volume, After, Ahead;
    if rounds != [] {
      var n := |rounds| - 1;
      var before := State(vol, rounds[..n]);
      RunPrefix(mk, vol, rounds, n);
      RunSound(mk, vol, rounds[..n]);
      assert IsRound(mk, before, rounds[n]);
      forall k | 0 <= k < n && 0 < Volume(State(vol, rounds[..n][..k]), x)
                 && 0 < Volume(State(vol, rounds[..n][..k]), y)
        ensures SeenAlike(mk, State(vol, rounds[..n][..k]), x, y, others)
      {
        assert rounds[..n][..k] == rounds[..k];
      }
      RunKeepsOrder(mk, vol, rounds[..n], x, y, others);
      if 0 < Volume(before, x) {
        RoundKeepsOrder(mk, before, x, y, others);
      } else {
        RoundKeepsValid(mk, before);
      }
    }
  }

  lemma AheadInSides<E>(mk: Market<E>, vol: map<E, int>, x: E, y: E)
    requires WellFormed(mk, vol)
    requires (y in mk.side1 && Ahead(mk.side1, x, y)) || (y in mk.side2 && Ahead(mk.side2, x, y))
    ensures Ahead(Sides(mk), x, y)
  {
    if y in mk.side1 {
      assert y !in mk.side2;
      NeverListed(mk.side2, x, y);
      AheadAppend(mk.side1, mk.side2, x, y);
    } else {
      NeverListed(mk.side1, x, y);
      AheadAppend(mk.side1, mk.side2, x, y);
    }
  }

  /**
   * Of two consumers of equal standing, the one that stands first in the list, if it asks for no more than
   * the other, is never left with more; if both ask for the same it never receives less.
   */
  lemma EarlierConsumerFirst<E>(mk: Market<E>, vol: map<E, int>, rounds: seq<seq<Match<E>>>, x: E, y: E)
    requires Sound(mk, vol) && IsRun(mk, vol, rounds) && EqualStanding(mk, x, y) && Ahead(mk.side1, x, y)
    requires Volume(vol, x) <= Volume(vol, y)
    ensures Volume(State(vol, rounds), x) <= Volume(State(vol, rounds), y)
    ensures Volume(vol, x) == Volume(vol, y) ==> DrawnIn(rounds, x) >= DrawnIn(rounds, y)
  {
    AheadInSides(mk, vol, x, y);
    assert Opposite(mk, x, y, mk.side2);
    hide State, IsRun, SeenAlike, Sound, DrawnIn, EqualStanding, Opposite, Ahead;
    forall k | 0 <= k < |rounds| && 0 < Volume(State(vol, rounds[..k]), x) && 0 < Volume(State(vol, rounds[..k]), y)
      ensures SeenAlike(mk, State(vol, rounds[..k]), x, y, mk.side2)
    {
      StateInRun(mk, vol, rounds, k, x, y);
      EqualStandingNeighbours(mk, State(vol, rounds[..k]), x, y);
    }
    RunKeepsOrder(mk, vol, rounds, x, y, mk.side2);
    RunConserves(mk, vol, rounds, x);
    RunConserves(mk, vol, rounds, y);
  }

  /** The same for two generators of equal preference. */
  lemma EarlierGeneratorFirst<E>(mk: Market<E>, vol: map<E, int>, rounds: seq<seq<Match<E>>>, g: E, h: E)
    requires Sound(mk, vol) && IsRun(mk, vol, rounds) && EqualPreference(mk, g, h) && Ahead(mk.side2, g, h)
    requires Volume(vol, g) <= Volume(vol, h)
    ensures Volume(State(vol, rounds), g) <= Volume(State(vol, rounds), h)
    ensures Volume(vol, g) == Volume(vol, h) ==> DrawnIn(rounds, g) >= DrawnIn(rounds, h)
  {
    AheadInSides(mk, vol, g, h);
    assert Opposite(mk, g, h, mk.side1);
    hide State, IsRun, SeenAlike, Sound, DrawnIn, EqualPreference, Opposite, Ahead;
    forall k | 0 <= k < |rounds| && 0 < Volume(State(vol, rounds[..k]), g) && 0 < Volume(State(vol, rounds[..k]), h)
      ensures SeenAlike(mk, State(vol, rounds[..k]), g, h, mk.side1)
    {
      StateInRun(mk, vol, rounds, k, g, h);
      EqualPreferenceNeighbours(mk, State(vol, rounds[..k]), g, h);
    }
    RunKeepsOrder(mk, vol, rounds, g, h, mk.side1);
    RunConserves(mk, vol, rounds, g);
    RunConserves(mk, vol, rounds, h);
  }
}
