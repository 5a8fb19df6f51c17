/** Concrete runs of the scoring rules: the deuce cycle, entering and leaving the 6-6
    tiebreak, and a match decided by the deciding-set super tiebreak. */
module Scenarios {
  import opened Wrappers
  import opened ScoreState
  import opened Scoring
  import opened Invariants

  /** Advantage side 0, back to deuce, advantage side 0 again, then the game. */
  lemma DeuceCycle(s: MatchState, superTiebreakFinal: bool)
    requires WellFormed(s) && s.winner == None && !s.isTiebreak && !s.isSuperTiebreak
    requires s.points == Pair(3, 3) && s.deuceAdvantage == None
    ensures var s1 := ScorePoint(s, 0, superTiebreakFinal);
            var s2 := ScorePoint(s1, 1, superTiebreakFinal);
            var s3 := ScorePoint(s2, 0, superTiebreakFinal);
            var s4 := ScorePoint(s3, 0, superTiebreakFinal);
            && s1.deuceAdvantage == Some(0) && s1.points == Pair(3, 3)
            && s2.deuceAdvantage == None && s2.points == Pair(3, 3)
            && s3.deuceAdvantage == Some(0)
            && s4.points == Pair(0, 0) && s4.deuceAdvantage == None
            && s4.games[s.currentSet] == s.games[s.currentSet].Bump(0)
  {
  }

  /** At 5-6 a game for side 0 makes 6-6 and starts the tiebreak with the same server;
      from 6-5 in that tiebreak, one more point for side 0 takes it 7-5, which credits
      the game, leaves tiebreak mode and wins the set. */
  lemma TiebreakEntryAndExit(s: Score, superTiebreakFinal: bool)
    requires s.winner == None && !s.isTiebreak && !s.isSuperTiebreak
    requires s.games[s.currentSet] == Pair(5, 6)
    ensures var t := ScoreGame(s, 0, superTiebreakFinal);
            && t.isTiebreak && t.tiebreakPoints == Pair(0, 0) && t.serving == s.serving
            && t.games[s.currentSet] == Pair(6, 6)
            && var u := ScorePoint(t.(tiebreakPoints := Pair(6, 5)), 0, superTiebreakFinal);
               && !u.isTiebreak && u.games[s.currentSet] == Pair(7, 6)
               && u.sets == s.sets.Bump(0)
  {
  }

  /** With the super tiebreak on, side 1 levelling the sets at one all starts the deciding
      super tiebreak straight away; side 1 then takes it 10-8 and the match 2 sets to 1. */
  lemma DecidingSuperTiebreak(s: Score)
    requires s.winner == None && !s.isTiebreak && !s.isSuperTiebreak
    requires s.sets == Pair(1, 0) && s.games[1] == Pair(4, 5)
    ensures var t := ScoreGame(s, 1, true);
            && t.isSuperTiebreak && t.currentSet == 2 && t.sets == Pair(1, 1)
            && t.tiebreakPoints == Pair(0, 0)
            && var u := ScorePoint(t.(tiebreakPoints := Pair(8, 9)), 1, true);
               && u.winner == Some(1) && u.sets == Pair(1, 2) && !u.isSuperTiebreak
               && u.tiebreakPoints == Pair(8, 10) && u.games == t.games
  {
  }
}
