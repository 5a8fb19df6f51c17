/** The scoring transitions of `app/scoring.py`, one function per helper of the source.
    Each helper there mutates a state dictionary in place; here each returns the new state.
    `superTiebreakFinal` is the source's `super_tiebreak_final` flag: the deciding third set
    is played as a single tiebreak to 10. */
module Scoring {
  import opened Wrappers
  import opened ScoreState

  /** Sets a side must take to win the match (best of 3). */
  const SetsToWin: nat := 2

  /** The server after a tiebreak point, given the running total of tiebreak points
      including that point: the source switches on the first point and then on every
      second one. */
  function RotateInTiebreak(serving: int, total: nat): (r: int)
    requires total >= 1
    ensures r == if total % 2 == 1 then 1 - serving else serving
  {
    if total == 1 || (total > 1 && (total - 1) % 2 == 0) then 1 - serving else serving
  }

  /** Whether `side` has reached `target` with a lead of at least two
      (the win test shared by sets, tiebreaks and super tiebreaks). */
  predicate WonBy(p: Pair, side: int, target: nat)
    requires IsSide(side)
  {
    p.Get(side) >= target && p.Get(side) - p.Get(1 - side) >= 2
  }

  /** `_win_set`: credit a set to `team`, then end the match or start the next set. */
  function WinSet(s: MatchState, team: int, superTiebreakFinal: bool): (r: MatchState)
    requires IsSide(team)
    ensures r.sets == s.sets.Bump(team) && r.points == Pair(0, 0)
    ensures r.games == s.games && r.deuceAdvantage == s.deuceAdvantage && r.isTiebreak == s.isTiebreak
    ensures r.winner == (if s.sets.Get(team) + 1 >= SetsToWin then Some(team) else s.winner)
    ensures s.sets.Get(team) + 1 >= SetsToWin ==>
              r.currentSet == s.currentSet && r.serving == s.serving &&
              r.isSuperTiebreak == s.isSuperTiebreak && r.tiebreakPoints == s.tiebreakPoints
    ensures s.sets.Get(team) + 1 < SetsToWin ==>
              r.currentSet == s.currentSet + 1 &&
              (r.isSuperTiebreak <==> s.isSuperTiebreak || (r.currentSet == 2 && superTiebreakFinal)) &&
              (if r.currentSet == 2 && superTiebreakFinal
               then r.serving == s.serving && r.tiebreakPoints == Pair(0, 0)
               else r.serving == 1 - s.serving && r.tiebreakPoints == s.tiebreakPoints)
  {
    var s1 := s.(sets := s.sets.Bump(team), points := Pair(0, 0));
    if s1.sets.Get(team) >= SetsToWin then
      s1.(winner := Some(team))
    else
      var s2 := s1.(currentSet := s1.currentSet + 1);
      if s2.currentSet == 2 && superTiebreakFinal then
        s2.(isSuperTiebreak := true, tiebreakPoints := Pair(0, 0))
      else
        s2.(serving := 1 - s2.serving)
  }

  /** `_win_game`: credit a game to `team` in the set in progress, reset the game score,
      then enter a tiebreak at 6-6, close the set at six or more games with a lead of two,
      or else hand the serve to the other side. */
  function WinGame(s: MatchState, team: int, superTiebreakFinal: bool): (r: MatchState)
    requires WellFormed(s) && IsSide(team)
    ensures r.games == s.games[s.currentSet := s.games[s.currentSet].Bump(team)]
    ensures r.points == Pair(0, 0) && r.deuceAdvantage == None
    ensures r.winner == s.winner || r.winner == Some(team)
    ensures var g := r.games[s.currentSet];
            if g == Pair(6, 6) then
              r == s.(games := r.games, points := Pair(0, 0), deuceAdvantage := None,
                      isTiebreak := true, tiebreakPoints := Pair(0, 0))
            else if WonBy(g, team, 6) then
              r == WinSet(s.(games := r.games, points := Pair(0, 0), deuceAdvantage := None),
                          team, superTiebreakFinal)
            else
              r == s.(games := r.games, points := Pair(0, 0), deuceAdvantage := None,
                      serving := 1 - s.serving)
  {
    var cs := s.currentSet;
    var g := s.games[cs].Bump(team);
    var s1 := s.(games := s.games[cs := g], points := Pair(0, 0), deuceAdvantage := None);
    if g.Get(team) == 6 && g.Get(1 - team) == 6 then
      s1.(isTiebreak := true, tiebreakPoints := Pair(0, 0))
    else if g.Get(team) >= 6 && g.Get(team) - g.Get(1 - team) >= 2 then
      WinSet(s1, team, superTiebreakFinal)
    else
      s1.(serving := 1 - s1.serving)
  }

  /** Whether a regular-game point for `team` completes the game: from 40 against
      less than 40, or from advantage. */
  predicate WinsRegularGame(s: MatchState, team: int)
    requires IsSide(team)
  {
    s.points.Get(team) >= 3 &&
    (s.points.Get(1 - team) < 3 || s.deuceAdvantage == Some(team))
  }

  /** `_score_regular_point`: a point in a regular game, with deuce and advantage. */
  function RegularPoint(s: MatchState, team: int, superTiebreakFinal: bool): (r: MatchState)
    requires WellFormed(s) && IsSide(team)
    ensures WinsRegularGame(s, team) ==> r == WinGame(s, team, superTiebreakFinal)
    ensures !WinsRegularGame(s, team) ==>
              r == s.(points := r.points, deuceAdvantage := r.deuceAdvantage) &&
              r.points.Get(1 - team) == s.points.Get(1 - team) &&
              (s.points.Get(team) < 3 ==>
                 r.points.Get(team) == s.points.Get(team) + 1 && r.deuceAdvantage == s.deuceAdvantage) &&
              (s.points.Get(team) >= 3 ==>
                 r.points == s.points &&
                 r.deuceAdvantage == (if s.deuceAdvantage == Some(1 - team) then None else Some(team)))
  {
    var other := 1 - team;
    var pTeam := s.points.Get(team);
    var pOther := s.points.Get(other);
    if pTeam >= 3 && pOther >= 3 then
      if s.deuceAdvantage == Some(team) then
        WinGame(s, team, superTiebreakFinal)
      else if s.deuceAdvantage == Some(other) then
        s.(deuceAdvantage := None)
      else
        s.(deuceAdvantage := Some(team))
    else if pTeam >= 3 then
      WinGame(s, team, superTiebreakFinal)
    else
      s.(points := s.points.Bump(team))
  }

  /** `_score_tiebreak_point`: a point in the 6-6 tiebreak, first to 7 with a lead of two.
      Winning it credits the game, leaves tiebreak mode and closes the set. */
  function TiebreakPoint(s: MatchState, team: int, superTiebreakFinal: bool): (r: MatchState)
    requires WellFormed(s) && IsSide(team)
    ensures var tb := s.tiebreakPoints.Bump(team);
            if WonBy(tb, team, 7) then
              && r.games == s.games[s.currentSet := s.games[s.currentSet].Bump(team)]
              && !r.isTiebreak && r.tiebreakPoints == Pair(0, 0)
              && r.sets == s.sets.Bump(team)
              && (r.winner == s.winner || r.winner == Some(team))
            else
              r == s.(tiebreakPoints := tb, serving := RotateInTiebreak(s.serving, tb.Total()))
  {
    var tb := s.tiebreakPoints.Bump(team);
    var s1 := s.(tiebreakPoints := tb, serving := RotateInTiebreak(s.serving, tb.a + tb.b));
    if tb.Get(team) >= 7 && tb.Get(team) - tb.Get(1 - team) >= 2 then
      var cs := s1.currentSet;
      var s2 := s1.(games := s1.games[cs := s1.games[cs].Bump(team)],
                    isTiebreak := false, tiebreakPoints := Pair(0, 0));
      WinSet(s2, team, superTiebreakFinal)
    else
      s1
  }

  /** The score a won tiebreak hands to `_win_set`: the point counted and the serve turned
      over, then the game credited, tiebreak mode left and the counts reset. */
  function ClosedTiebreak(s: MatchState, team: int): (r: MatchState)
    requires WellFormed(s) && IsSide(team)
    ensures r.games == s.games[s.currentSet := s.games[s.currentSet].Bump(team)]
    ensures !r.isTiebreak && r.tiebreakPoints == Pair(0, 0)
    ensures r.serving == RotateInTiebreak(s.serving, s.tiebreakPoints.Total() + 1)
    ensures r == s.(games := r.games, isTiebreak := false, tiebreakPoints := Pair(0, 0), serving := r.serving)
  {
    var tb := s.tiebreakPoints.Bump(team);
    var cs := s.currentSet;
    s.(tiebreakPoints := Pair(0, 0), serving := RotateInTiebreak(s.serving, tb.Total()),
       games := s.games[cs := s.games[cs].Bump(team)], isTiebreak := false)
  }

  /** Taking the tiebreak is taking the set from that score. */
  lemma TiebreakWinIsSetWin(s: MatchState, team: int, superTiebreakFinal: bool)
    requires WellFormed(s) && IsSide(team)
    requires WonBy(s.tiebreakPoints.Bump(team), team, 7)
    ensures TiebreakPoint(s, team, superTiebreakFinal) == WinSet(ClosedTiebreak(s, team), team, superTiebreakFinal)
  {
  }

  /** `_score_super_tiebreak_point`: a point in the deciding-set tiebreak, first to 10 with
      a lead of two. Winning it wins the match; the source neither credits a game nor
      resets the tiebreak counts. */
  function SuperTiebreakPoint(s: MatchState, team: int): (r: MatchState)
    requires IsSide(team)
    ensures var tb := s.tiebreakPoints.Bump(team);
            && r.tiebreakPoints == tb
            && r.serving == RotateInTiebreak(s.serving, tb.Total())
            && r.games == s.games && r.points == s.points && r.currentSet == s.currentSet
            && r.isTiebreak == s.isTiebreak && r.deuceAdvantage == s.deuceAdvantage
            && if WonBy(tb, team, 10) then
                 r.sets == s.sets.Bump(team) && r.winner == Some(team) && !r.isSuperTiebreak
               else
                 r.sets == s.sets && r.winner == s.winner && r.isSuperTiebreak == s.isSuperTiebreak
  {
    var tb := s.tiebreakPoints.Bump(team);
    var s1 := s.(tiebreakPoints := tb, serving := RotateInTiebreak(s.serving, tb.a + tb.b));
    if tb.Get(team) >= 10 && tb.Get(team) - tb.Get(1 - team) >= 2 then
      s1.(sets := s1.sets.Bump(team), isSuperTiebreak := false, winner := Some(team))
    else
      s1
  }

  /** `score_point`: one point for `team`. A decided match is returned unchanged;
      otherwise the point is played in whichever mode is active. */
  function ScorePoint(s: MatchState, team: int, superTiebreakFinal: bool): (r: MatchState)
    requires s.winner == None ==> WellFormed(s)
    requires IsSide(team)
    ensures s.winner != None ==> r == s
    ensures r.winner == s.winner || r.winner == Some(team)
  {
    if s.winner != None then
      s
    else if s.isSuperTiebreak then
      SuperTiebreakPoint(s, team)
    else if s.isTiebreak then
      TiebreakPoint(s, team, superTiebreakFinal)
    else
      RegularPoint(s, team, superTiebreakFinal)
  }

  /** `score_game`: award a whole game to `team`. A decided match, or one in either
      tiebreak mode, is returned unchanged; otherwise the game score is cleared and the
      same game-win cascade as point scoring runs. */
  function ScoreGame(s: MatchState, team: int, superTiebreakFinal: bool): (r: MatchState)
    requires s.winner == None && !s.isTiebreak && !s.isSuperTiebreak ==> WellFormed(s)
    requires IsSide(team)
    ensures s.winner != None || s.isTiebreak || s.isSuperTiebreak ==> r == s
  {
    if s.winner != None then
      s
    else if s.isTiebreak || s.isSuperTiebreak then
      s
    else
      WinGame(s.(points := Pair(0, 0), deuceAdvantage := None), team, superTiebreakFinal)
  }
}
