/** Safety and tightness of the volumes moved in one round of the spread matcher. */
module SpreadRoundSafety {
  import opened Sequences
  import opened SpreadRound
  import opened SpreadRoundFacts
  import opened SpreadLinks

  ghost function Degree<E>(mk: Market<E>, vol: map<E, int>, e: E): nat {
    |Neighbours(RoundRoutes(mk, vol), e)|
  }

  lemma QuotientBounds(volume: int, degree: int)
    requires 0 <= volume && 0 < degree
    ensures 0 <= volume / degree && volume / degree * degree <= volume < (volume / degree + 1) * degree
  {
    assert volume == volume / degree * degree + volume % degree;
  }

  lemma QuotientIsLargest(volume: int, degree: int, amount: int)
    requires 0 <= volume && 0 < degree
    ensures amount * degree <= volume <==> amount <= volume / degree
  {
    QuotientBounds(volume, degree);
    if amount <= volume / degree {
      MulMonotone(amount, volume / degree, degree);
    } else {
      MulMonotone(volume / degree + 1, amount, degree);
    }
  }

  lemma AmountOverdrawsNobody<E>(mk: Market<E>, vol: map<E, int>, e: E)
    requires Valid(mk, vol) && Candidates(mk, vol) != []
    ensures 0 <= SafeAmount(mk, vol) && SafeAmount(mk, vol) * Degree(mk, vol, e) <= Volume(vol, e)
  {
    var cs, routes := Candidates(mk, vol), RoundRoutes(mk, vol);
    CandidateHasRoute(mk, vol, Chosen(mk, vol));
    QuotientBounds(Volume(vol, Chosen(mk, vol)), Degree(mk, vol, Chosen(mk, vol)));
    if Degree(mk, vol, e) != 0 {
      CandidateHasRoute(mk, vol, e);
      var i :| 0 <= i < |cs| && cs[i] == e;
      SmallestShareIsLeast(cs, vol, routes);
      assert SafeAmount(mk, vol) <= Share(vol, routes, cs[i]);
      QuotientBounds(Volume(vol, e), Degree(mk, vol, e));
      MulMonotone(SafeAmount(mk, vol), Share(vol, routes, e), Degree(mk, vol, e));
    }
  }

  lemma MulMonotone(a: int, b: int, k: nat)
    requires a <= b
    ensures a * k <= b * k
  {
  }

  /** The uniform amount of a round is the largest amount that every route can carry at once. */
  lemma SafeAmountIsLargest<E>(mk: Market<E>, vol: map<E, int>, amount: int)
    requires Valid(mk, vol) && Candidates(mk, vol) != []
    ensures amount <= SafeAmount(mk, vol) <==> forall e | e in vol :: amount * Degree(mk, vol, e) <= Volume(vol, e)
  {
    var c, safe := Chosen(mk, vol), SafeAmount(mk, vol);
    CandidateHasRoute(mk, vol, c);
    assert c in vol;
    QuotientIsLargest(Volume(vol, c), Degree(mk, vol, c), amount);
    forall e | e in vol && amount <= safe ensures amount * Degree(mk, vol, e) <= Volume(vol, e) {
      AmountOverdrawsNobody(mk, vol, e);
      MulMonotone(amount, safe, Degree(mk, vol, e));
    }
  }

  /** A uniform round takes the same amount along every route of an entity. */
  lemma UniformRound<E>(mk: Market<E>, vol: map<E, int>, e: E)
    requires Valid(mk, vol) && Candidates(mk, vol) != []
    requires SafeAmount(mk, vol) != 0
    ensures Drawn(RoundMatches(mk, vol), e) == SafeAmount(mk, vol) * Degree(mk, vol, e)
    ensures 0 <= Drawn(RoundMatches(mk, vol), e) <= Volume(vol, e)
  {
    RoundRoutesShape(mk, vol);
    AmountOverdrawsNobody(mk, vol, e);
    UniformDraws(RoundRoutes(mk, vol), SafeAmount(mk, vol), mk.side1, mk.side2, e);
    MulMonotone(0, SafeAmount(mk, vol), Degree(mk, vol, e));
  }

  /** The neighbours served in a round without a uniform amount. */
  ghost function Served<E>(mk: Market<E>, vol: map<E, int>): seq<E>
    requires Candidates(mk, vol) != []
  {
    Prefix(Neighbours(RoundRoutes(mk, vol), Chosen(mk, vol)), Volume(vol, Chosen(mk, vol)))
  }

  ghost predicate ChosenIsFirst<E>(mk: Market<E>, vol: map<E, int>)
    requires Candidates(mk, vol) != []
  {
    Chosen(mk, vol) in WithRoutes(Live(mk.side1, vol), RoundRoutes(mk, vol))
  }

  lemma ServedAreNeighbours<E>(mk: Market<E>, vol: map<E, int>)
    requires Valid(mk, vol) && Candidates(mk, vol) != []
    requires SafeAmount(mk, vol) == 0
    ensures 0 < Volume(vol, Chosen(mk, vol)) < Degree(mk, vol, Chosen(mk, vol))
    ensures Served(mk, vol) == Neighbours(RoundRoutes(mk, vol), Chosen(mk, vol))[..Volume(vol, Chosen(mk, vol))]
    ensures RoundMatches(mk, vol) == Units(Chosen(mk, vol), ChosenIsFirst(mk, vol), Served(mk, vol))
  {
    hide Neighbours, Units, SmallestShare, Live, WithRoutes, Grouped, RoundRoutes, Uniform;
    CandidateHasRoute(mk, vol, Chosen(mk, vol));
    QuotientBounds(Volume(vol, Chosen(mk, vol)), Degree(mk, vol, Chosen(mk, vol)));
  }

  lemma ServedAreDistinct<E>(mk: Market<E>, vol: map<E, int>)
    requires Valid(mk, vol) && Unambiguous(mk.priority) && Candidates(mk, vol) != []
    requires SafeAmount(mk, vol) == 0
    ensures NoDuplicates(Served(mk, vol)) && Chosen(mk, vol) !in Served(mk, vol)
  {
    RoundRoutesShape(mk, vol);
    RoutesAreDistinct(mk, vol);
    NeighboursDistinct(RoundRoutes(mk, vol), mk.side1, mk.side2, Chosen(mk, vol));
    ServedAreNeighbours(mk, vol);
  }

  /** A round without a uniform amount empties the chosen entity and takes at most one unit from any other. */
  lemma UnitRound<E>(mk: Market<E>, vol: map<E, int>, e: E)
    requires Valid(mk, vol) && Unambiguous(mk.priority) && Candidates(mk, vol) != []
    requires SafeAmount(mk, vol) == 0
    ensures Drawn(RoundMatches(mk, vol), e) ==
            if e == Chosen(mk, vol) then Volume(vol, e) else if e in Served(mk, vol) then 1 else 0
    ensures 0 <= Drawn(RoundMatches(mk, vol), e) <= Volume(vol, e)
    ensures 0 < Volume(vol, Chosen(mk, vol)) == |Served(mk, vol)|
  {
    hide RoundMatches, Served, Candidates, Neighbours, Units, Drawn, RoundRoutes;
    var c := Chosen(mk, vol);
    ServedAreNeighbours(mk, vol);
    ServedAreDistinct(mk, vol);
    UnitsDraw(c, ChosenIsFirst(mk, vol), Served(mk, vol), e);
    if e in Served(mk, vol) {
      assert e in Neighbours(RoundRoutes(mk, vol), c);
      EndOfRoute(mk, vol, c, e);
    }
  }

  /** Whatever the branch, a round never takes more from an entity than it has, nor a negative amount. */
  lemma RoundIsSafe<E>(mk: Market<E>, vol: map<E, int>, e: E)
    requires Valid(mk, vol) && Unambiguous(mk.priority) && Candidates(mk, vol) != []
    ensures 0 <= Drawn(RoundMatches(mk, vol), e) <= Volume(vol, e)
  {
    if SafeAmount(mk, vol) == 0 {
      UnitRound(mk, vol, e);
    } else {
      UniformRound(mk, vol, e);
    }
  }

  lemma RoundMatchesCases<E>(mk: Market<E>, vol: map<E, int>)
    requires Candidates(mk, vol) != []
    ensures RoundMatches(mk, vol) ==
            if SafeAmount(mk, vol) == 0 then Units(Chosen(mk, vol), ChosenIsFirst(mk, vol), Served(mk, vol))
            else Uniform(RoundRoutes(mk, vol), SafeAmount(mk, vol))
  {
    hide Neighbours, Units, SmallestShare, Live, WithRoutes, RoundRoutes, Uniform, Prefix;
  }

  /** Every match of a round lies on one of the round's routes, and moves a positive volume if none is negative. */
  lemma MatchesFollowRoutes<E>(mk: Market<E>, vol: map<E, int>, m: Match<E>)
    requires WellFormed(mk, vol) && Candidates(mk, vol) != []
    requires m in RoundMatches(mk, vol)
    ensures (m.first, m.second) in RoundRoutes(mk, vol)
    ensures Valid(mk, vol) ==> 0 < m.volume
  {
    hide RoundRoutes, RoundMatches, Neighbours, Candidates, Chosen, ChosenIsFirst, Valid, WellFormed, SafeAmount;
    var routes := RoundRoutes(mk, vol);
    var i :| 0 <= i < |RoundMatches(mk, vol)| && RoundMatches(mk, vol)[i] == m;
    RoundMatchesCases(mk, vol);
    if SafeAmount(mk, vol) != 0 {
      UniformShape(routes, SafeAmount(mk, vol));
      assert routes[i] == (m.first, m.second);
      assert routes[i] in routes;
      if Valid(mk, vol) {
        AmountOverdrawsNobody(mk, vol, Chosen(mk, vol));
      }
    } else {
      UnitsShape(Chosen(mk, vol), ChosenIsFirst(mk, vol), Served(mk, vol));
      var o := Served(mk, vol)[i];
      assert o in Neighbours(routes, Chosen(mk, vol));
      UnitFollowsRoute(mk, vol, o);
    }
  }

  /** An entity without volume takes no part in a round. */
  lemma NothingFromNothing<E>(mk: Market<E>, vol: map<E, int>, e: E)
    requires WellFormed(mk, vol) && Candidates(mk, vol) != [] && Volume(vol, e) == 0
    ensures Drawn(RoundMatches(mk, vol), e) == 0
  {
    hide RoundRoutes, RoundMatches, Candidates, Drawn, WellFormed;
    RoundRoutesShape(mk, vol);
    forall m | m in RoundMatches(mk, vol) ensures m.first != e && m.second != e {
      MatchesFollowRoutes(mk, vol, m);
      assert Volume(vol, (m.first, m.second).0) != 0 && Volume(vol, (m.first, m.second).1) != 0;
    }
    NotDrawn(RoundMatches(mk, vol), e);
  }

  lemma UnitFollowsRoute<E>(mk: Market<E>, vol: map<E, int>, o: E)
    requires WellFormed(mk, vol) && Candidates(mk, vol) != []
    requires o in Neighbours(RoundRoutes(mk, vol), Chosen(mk, vol))
    ensures (if ChosenIsFirst(mk, vol) then (Chosen(mk, vol), o) else (o, Chosen(mk, vol))) in RoundRoutes(mk, vol)
  {
    var routes, c := RoundRoutes(mk, vol), Chosen(mk, vol);
    NeighboursMembers(routes, c);
    assert c in mk.side1 <==> ChosenIsFirst(mk, vol) by {
      EndOfRoute(mk, vol, c, o);
      WithRoutesMembers(Live(mk.side1, vol), routes);
      LiveMembers(mk.side1, vol);
    }
    var r := if (c, o) in routes then (c, o) else (o, c);
    var j, k, p := RouteOrigin(mk, vol, r);
  }
}
