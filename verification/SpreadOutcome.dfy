/** What the matches that the spread matcher returns say about the volumes it was given. */
module SpreadOutcome {
  import opened SpreadRound
  import opened SpreadRoundSafety
  import opened SpreadRun
  import opened SpreadTally

  lemma {:induction false} RunMatchesPositive<E>(mk: Market<E>, vol: map<E, int>, rounds: seq<seq<Match<E>>>)
    requires Sound(mk, vol) && IsRun(mk, vol, rounds)
    ensures Positive(Flat(rounds))
  {
    if rounds != [] {
      hide RoundMatches, Candidates, Sound;
      var n := |rounds| - 1;
      var before := State(vol, rounds[..n]);
      RunPrefix(mk, vol, rounds, n);
      RunMatchesPositive(mk, vol, rounds[..n]);
      RunSound(mk, vol, rounds[..n]);
      assert IsRound(mk, before, rounds[n]);
      forall i | 0 <= i < |rounds[n]| ensures 0 < rounds[n][i].volume { MatchIsPositive(mk, before, rounds[n][i]); }
    }
  }

  lemma MatchIsPositive<E>(mk: Market<E>, vol: map<E, int>, m: Match<E>)
    requires Sound(mk, vol) && Candidates(mk, vol) != []
    requires m in RoundMatches(mk, vol)
    ensures 0 < m.volume
  {
    MatchesFollowRoutes(mk, vol, m);
  }

  /**
   * Exact conservation: what an entity had is what the returned matches take from it plus what it
   * has left; the returned matches name every pair once, with a positive volume.
   */
  lemma MatchesConserve<E>(mk: Market<E>, vol: map<E, int>, rounds: seq<seq<Match<E>>>, e: E)
    requires Sound(mk, vol) && IsRun(mk, vol, rounds)
    ensures var matches := Unwind(Tally(Flat(rounds)));
            && Volume(vol, e) == Drawn(matches, e) + Volume(State(vol, rounds), e)
            && 0 <= Drawn(matches, e) && 0 <= Volume(State(vol, rounds), e)
            && DistinctPairs(matches) && Positive(matches)
  {
    hide Drawn, State, Volume, DrawnIn, IsRun, Tally, Unwind;
    RunConserves(mk, vol, rounds, e);
    RunMatchesPositive(mk, vol, rounds);
    FlatDraws(rounds, e);
    TallyKeepsTotals(Flat(rounds), e, e);
    TallySumsPairs(Flat(rounds));
  }
}
