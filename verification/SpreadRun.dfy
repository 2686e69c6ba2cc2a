/**
 * Whole runs of the spread matcher: a run is the sequence of the matches of its rounds, each of
 * them computed from the volumes that the rounds before it left.
 */
module SpreadRun {
  import opened SpreadRound
  import opened SpreadRoundFacts
  import opened SpreadRoundSafety

  /** The volumes left after some rounds. */
  function State<E(==)>(vol: map<E, int>, rounds: seq<seq<Match<E>>>): map<E, int> {
    if rounds == [] then vol
    else After(State(vol, rounds[..|rounds| - 1]), rounds[|rounds| - 1])
  }

  ghost predicate IsRound<E>(mk: Market<E>, vol: map<E, int>, ms: seq<Match<E>>) {
    Candidates(mk, vol) != [] && ms == RoundMatches(mk, vol)
  }

  ghost predicate IsRun<E>(mk: Market<E>, vol: map<E, int>, rounds: seq<seq<Match<E>>>) {
    forall k :: 0 <= k < |rounds| ==> IsRound(mk, State(vol, rounds[..k]), rounds[k])
  }

  /** The volume that all rounds together take from an entity. */
  function DrawnIn<E(==)>(rounds: seq<seq<Match<E>>>, e: E): int {
    if rounds == [] then 0 else DrawnIn(rounds[..|rounds| - 1], e) + Drawn(rounds[|rounds| - 1], e)
  }

  /** The assumptions under which the matcher is analysed. */
  ghost predicate Sound<E>(mk: Market<E>, vol: map<E, int>) {
    Valid(mk, vol) && Unambiguous(mk.priority)
  }

  /** After a round all volumes are still known and not negative, and none has grown. */
  lemma RoundKeepsValid<E>(mk: Market<E>, vol: map<E, int>)
    requires Sound(mk, vol) && Candidates(mk, vol) != []
    ensures Valid(mk, After(vol, RoundMatches(mk, vol)))
    ensures forall e :: Volume(After(vol, RoundMatches(mk, vol)), e) == Volume(vol, e) - Drawn(RoundMatches(mk, vol), e)
    ensures forall e :: 0 <= Volume(After(vol, RoundMatches(mk, vol)), e) <= Volume(vol, e)
  {
    forall e
      ensures Volume(After(vol, RoundMatches(mk, vol)), e) == Volume(vol, e) - Drawn(RoundMatches(mk, vol), e)
      ensures 0 <= Volume(After(vol, RoundMatches(mk, vol)), e) <= Volume(vol, e)
    {
      RoundIsSafe(mk, vol, e);
    }
    forall e | e in vol ensures 0 <= After(vol, RoundMatches(mk, vol))[e] {
      RoundIsSafe(mk, vol, e);
    }
  }

  /** A run cut short is a run. */
  lemma RunPrefix<E>(mk: Market<E>, vol: map<E, int>, rounds: seq<seq<Match<E>>>, n: nat)
    requires IsRun(mk, vol, rounds)
    requires n <= |rounds|
    ensures IsRun(mk, vol, rounds[..n])
  {
    forall k | 0 <= k < n ensures IsRound(mk, State(vol, rounds[..n][..k]), rounds[..n][k]) {
      assert rounds[..n][..k] == rounds[..k];
    }
  }

  /** A run goes on with the round that its final state asks for. */
  lemma RunExtends<E>(mk: Market<E>, vol: map<E, int>, rounds: seq<seq<Match<E>>>, ms: seq<Match<E>>)
    requires IsRun(mk, vol, rounds)
    requires IsRound(mk, State(vol, rounds), ms)
    ensures IsRun(mk, vol, rounds + [ms])
    ensures State(vol, rounds + [ms]) == After(State(vol, rounds), ms)
  {
    hide IsRound;
    var longer := rounds + [ms];
    assert longer[..|rounds|] == rounds;
    forall k | 0 <= k < |longer| ensures IsRound(mk, State(vol, longer[..k]), longer[k]) {
      if k < |rounds| {
        assert longer[..k] == rounds[..k] && longer[k] == rounds[k];
      }
    }
  }

  lemma {:induction false} RunSound<E>(mk: Market<E>, vol: map<E, int>, rounds: seq<seq<Match<E>>>)
    requires Sound(mk, vol) && IsRun(mk, vol, rounds)
    ensures Sound(mk, State(vol, rounds))
  {
    if rounds != [] {
      var n := |rounds| - 1;
      RunPrefix(mk, vol, rounds, n);
      RunSound(mk, vol, rounds[..n]);
      RoundKeepsValid(mk, State(vol, rounds[..n]));
    }
  }

  /** Whatever rounds are played, an entity has what it had minus what was taken from it, even if that is negative. */
  lemma {:induction false} RoundsBalance<E>(vol: map<E, int>, rounds: seq<seq<Match<E>>>, e: E)
    requires e in vol
    ensures e in State(vol, rounds) && vol[e] == DrawnIn(rounds, e) + State(vol, rounds)[e]
  {
    if rounds != [] {
      RoundsBalance(vol, rounds[..|rounds| - 1], e);
    }
  }

  /** Conservation at any point of a run: an entity's volume is what it had minus what was taken from it. */
  lemma {:induction false} RunConserves<E>(mk: Market<E>, vol: map<E, int>, rounds: seq<seq<Match<E>>>, e: E)
    requires Sound(mk, vol) && IsRun(mk, vol, rounds)
    ensures Sound(mk, State(vol, rounds))
    ensures 0 <= Volume(State(vol, rounds), e) <= Volume(vol, e)
    ensures Volume(vol, e) == DrawnIn(rounds, e) + Volume(State(vol, rounds), e)
  {
    if rounds == [] {
      assert e in vol ==> 0 <= vol[e];
    } else {
      var n := |rounds| - 1;
      RunPrefix(mk, vol, rounds, n);
      RunConserves(mk, vol, rounds[..n], e);
      RoundKeepsValid(mk, State(vol, rounds[..n]));
    }
  }

  /** Volumes only fall as a run goes on. */
  lemma {:induction false} VolumesFall<E>(mk: Market<E>, vol: map<E, int>, rounds: seq<seq<Match<E>>>, k: nat, e: E)
    requires Sound(mk, vol) && IsRun(mk, vol, rounds)
    requires k <= |rounds|
    ensures Volume(State(vol, rounds), e) <= Volume(State(vol, rounds[..k]), e)
    decreases |rounds|
  {
    hide RoundMatches, Candidates, Volume, After, Sound;
    if k == |rounds| {
      assert rounds[..k] == rounds;
    } else {
      var n := |rounds| - 1;
      RunPrefix(mk, vol, rounds, n);
      VolumesFall(mk, vol, rounds[..n], k, e);
      assert rounds[..n][..k] == rounds[..k];
      RunSound(mk, vol, rounds[..n]);
      assert IsRound(mk, State(vol, rounds[..n]), rounds[n]);
      RoundKeepsValid(mk, State(vol, rounds[..n]));
    }
  }

  // ----- the number of rounds

  lemma {:induction false} LiveShrinks<E>(es: seq<E>, vol: map<E, int>, vol': map<E, int>)
    requires forall e :: 0 <= Volume(vol', e) <= Volume(vol, e)
    ensures |Live(es, vol')| <= |Live(es, vol)|
    ensures |Live(es, vol')| == |Live(es, vol)| ==> Live(es, vol') == Live(es, vol)
    ensures (exists e | e in es :: Volume(vol, e) != 0 && Volume(vol', e) == 0) ==> |Live(es, vol')| < |Live(es, vol)|
  {
    if es != [] {
      var n := |es| - 1;
      LiveShrinks(es[..n], vol, vol');
      assert es == es[..n] + [es[n]];
    }
  }

  ghost function LiveCount<E>(mk: Market<E>, vol: map<E, int>): nat {
    |Live(mk.side1, vol)| + |Live(mk.side2, vol)|
  }

  /** How many rounds a state has ahead of it at most. */
  ghost function RoundsAhead<E>(mk: Market<E>, vol: map<E, int>): int {
    2 * LiveCount(mk, vol) - if Candidates(mk, vol) != [] && SafeAmount(mk, vol) == 0 then 1 else 0
  }

  lemma RoundsAheadNotNegative<E>(mk: Market<E>, vol: map<E, int>)
    requires Valid(mk, vol)
    ensures 0 <= RoundsAhead(mk, vol)
  {
    if Candidates(mk, vol) != [] {
      CandidateHasRoute(mk, vol, Chosen(mk, vol));
      LiveMembers(mk.side1, vol);
      LiveMembers(mk.side2, vol);
    }
  }

  /** An entity that a round empties leaves the live ones. */
  lemma EmptyingShrinks<E>(mk: Market<E>, vol: map<E, int>, e: E)
    requires Sound(mk, vol) && Candidates(mk, vol) != []
    requires e in mk.side1 || e in mk.side2
    requires 0 < Volume(vol, e) == Drawn(RoundMatches(mk, vol), e)
    ensures LiveCount(mk, After(vol, RoundMatches(mk, vol))) < LiveCount(mk, vol)
  {
    RoundKeepsValid(mk, vol);
    LiveShrinks(mk.side1, vol, After(vol, RoundMatches(mk, vol)));
    LiveShrinks(mk.side2, vol, After(vol, RoundMatches(mk, vol)));
  }

  /**
   * A uniform round that empties nobody leaves the routes as they were and brings the next amount
   * down to zero, so that the next round serves single units.
   */
  lemma UniformThenUnits<E>(mk: Market<E>, vol: map<E, int>)
    requires Sound(mk, vol) && Candidates(mk, vol) != []
    requires SafeAmount(mk, vol) != 0
    requires LiveCount(mk, After(vol, RoundMatches(mk, vol))) == LiveCount(mk, vol)
    ensures var vol' := After(vol, RoundMatches(mk, vol));
            && RoundRoutes(mk, vol') == RoundRoutes(mk, vol)
            && Candidates(mk, vol') == Candidates(mk, vol)
            && SafeAmount(mk, vol') == 0
  {
    var c, vol' := Chosen(mk, vol), After(vol, RoundMatches(mk, vol));
    RoundKeepsValid(mk, vol);
    assert Live(mk.side1, vol') == Live(mk.side1, vol) && Live(mk.side2, vol') == Live(mk.side2, vol) by {
      LiveShrinks(mk.side1, vol, vol');
      LiveShrinks(mk.side2, vol, vol');
    }
    assert RoundRoutes(mk, vol') == RoundRoutes(mk, vol);
    ChosenRunsLow(mk, vol);
    NextAmountIsZero(mk, vol', c);
  }

  /** What a uniform round leaves to its chosen entity is less than one unit for each of its routes. */
  lemma ChosenRunsLow<E>(mk: Market<E>, vol: map<E, int>)
    requires Sound(mk, vol) && Candidates(mk, vol) != []
    requires SafeAmount(mk, vol) != 0
    ensures Volume(After(vol, RoundMatches(mk, vol)), Chosen(mk, vol)) < Degree(mk, vol, Chosen(mk, vol))
  {
    var c, degree := Chosen(mk, vol), Degree(mk, vol, Chosen(mk, vol));
    RoundKeepsValid(mk, vol);
    CandidateHasRoute(mk, vol, c);
    UniformRound(mk, vol, c);
    QuotientBounds(Volume(vol, c), degree);
    assert (SafeAmount(mk, vol) + 1) * degree == SafeAmount(mk, vol) * degree + degree;
  }

  lemma NextAmountIsZero<E>(mk: Market<E>, vol: map<E, int>, c: E)
    requires Valid(mk, vol) && Candidates(mk, vol) != []
    requires Volume(vol, c) < Degree(mk, vol, c)
    ensures SafeAmount(mk, vol) == 0
  {
    AmountOverdrawsNobody(mk, vol, c);
    if 1 <= SafeAmount(mk, vol) {
      MulMonotone(1, SafeAmount(mk, vol), Degree(mk, vol, c));
    }
  }

  lemma RoundsAheadFalls<E>(mk: Market<E>, vol: map<E, int>)
    requires Sound(mk, vol) && Candidates(mk, vol) != []
    ensures RoundsAhead(mk, After(vol, RoundMatches(mk, vol))) < RoundsAhead(mk, vol)
  {
    hide RoundMatches, Candidates, Drawn, RoundRoutes, Neighbours, Live, After, Served, Share, SmallestShare;
    var c, vol' := Chosen(mk, vol), After(vol, RoundMatches(mk, vol));
    RoundKeepsValid(mk, vol);
    LiveShrinks(mk.side1, vol, vol');
    LiveShrinks(mk.side2, vol, vol');
    if SafeAmount(mk, vol) == 0 {
      UnitRound(mk, vol, c);
      CandidateHasRoute(mk, vol, c);
      EmptyingShrinks(mk, vol, c);
    } else if LiveCount(mk, vol') == LiveCount(mk, vol) {
      UniformThenUnits(mk, vol);
    }
  }

  /** Linear round bound: a run takes at most two rounds for every entity that had volume at its start. */
  lemma {:induction false} RoundBound<E>(mk: Market<E>, vol: map<E, int>, rounds: seq<seq<Match<E>>>)
    requires Sound(mk, vol) && IsRun(mk, vol, rounds)
    ensures |rounds| + RoundsAhead(mk, State(vol, rounds)) <= 2 * LiveCount(mk, vol)
    ensures |rounds| <= 2 * (|mk.side1| + |mk.side2|)
  {
    if rounds != [] {
      var n := |rounds| - 1;
      RunPrefix(mk, vol, rounds, n);
      RoundBound(mk, vol, rounds[..n]);
      RunSound(mk, vol, rounds[..n]);
      RoundsAheadFalls(mk, State(vol, rounds[..n]));
    }
    RunSound(mk, vol, rounds);
    RoundsAheadNotNegative(mk, State(vol, rounds));
    LiveIsShorter(mk.side1, vol);
    LiveIsShorter(mk.side2, vol);
  }

  lemma {:induction false} LiveIsShorter<E>(es: seq<E>, vol: map<E, int>)
    ensures |Live(es, vol)| <= |es|
  {
    if es != [] {
      LiveIsShorter(es[..|es| - 1], vol);
    }
  }
}
