/** The engine never gets stuck: from any valid score, a side that wins every point wins the
    match, after exactly `PointsToWin` points. As a by-product, awarding a whole game with
    `score_game` is the same as that side winning the remaining points of the game. */
module Progress {
  import opened Wrappers
  import opened ScoreState
  import opened Scoring
  import opened Invariants

  /** Points `team` still needs to take the regular game in progress. */
  function GamePointsNeeded(s: MatchState, team: int): nat
    requires IsSide(team)
  {
    var p := s.points.Get(team);
    var q := s.points.Get(1 - team);
    if p >= 3 && q >= 3 then
      (if s.deuceAdvantage == Some(team) then 1
       else if s.deuceAdvantage == Some(1 - team) then 3
       else 2)
    else if p >= 3 then 1
    else if q >= 3 then 5 - p   // reach 40, take advantage, then the game
    else 4 - p
  }

  /** Points `team` still needs to take a tiebreak to `target`. */
  function TiebreakPointsNeeded(tb: Pair, team: int, target: nat): nat
    requires IsSide(team)
  {
    var goal := if tb.Get(1 - team) + 2 > target then tb.Get(1 - team) + 2 else target;
    if goal > tb.Get(team) then goal - tb.Get(team) else 0
  }

  /** Points `team` still needs for the set once it has just brought its games to `g`,
      taking every remaining game to love: four points a game until it leads by two from
      six, or until 6-6 and then the seven points of the tiebreak. */
  function SetRest(g: Pair, team: int): nat
    requires IsSide(team)
  {
    var mine := g.Get(team);
    var theirs := g.Get(1 - team);
    if g == Pair(6, 6) then 7
    else if WonBy(g, team, 6) then 0
    else if theirs == 6 && mine < 6 then 4 * (6 - mine) + 7
    else if theirs <= 5 && mine < 7 then
      4 * ((if theirs + 2 > 6 then theirs + 2 else 6) - mine)
    else 0
  }

  /** Game by game: a set still in play costs one more game, then the rest from there. */
  lemma SetRestStep(g: Pair, team: int)
    requires IsSide(team) && g.a <= 6 && g.b <= 6
    requires g != Pair(6, 6) && !WonBy(g, team, 6) && !WonBy(g, 1 - team, 6)
    ensures SetRest(g, team) == 4 + SetRest(g.Bump(team), team)
  {
  }

  /** Points `team` still needs for the match once it has taken set number `closing`,
      with `sets` the sets won before that one: nothing if that set wins the match, else
      one more set, which is the super tiebreak to 10 when it is the deciding third set,
      and otherwise a full set from love. */
  function MatchRest(sets: Pair, closing: nat, team: int, superTiebreakFinal: bool): nat
    requires IsSide(team)
  {
    if sets.Get(team) + 1 >= SetsToWin then 0
    else if closing + 1 == 2 && superTiebreakFinal then 10
    else 4 + SetRest(Pair(0, 0).Bump(team), team)
  }

  /** The games of the set in progress. */
  function GamesInPlay(s: MatchState): Pair {
    if s.currentSet < |s.games| then s.games[s.currentSet] else Pair(0, 0)
  }

  /** Points `team` needs to win the match from `s` if it wins every point. */
  function PointsToWin(s: MatchState, team: int, superTiebreakFinal: bool): nat
    requires IsSide(team)
  {
    if s.winner != None then 0
    else if s.isSuperTiebreak then TiebreakPointsNeeded(s.tiebreakPoints, team, 10)
    else if s.isTiebreak then
      TiebreakPointsNeeded(s.tiebreakPoints, team, 7)
      + MatchRest(s.sets, s.currentSet, team, superTiebreakFinal)
    else
      GamePointsNeeded(s, team)
      + SetRest(GamesInPlay(s).Bump(team), team)
      + MatchRest(s.sets, s.currentSet, team, superTiebreakFinal)
  }

  /** The points a set closed by `team` leaves to play, whichever way `_win_set` continues. */
  lemma WinSetProgress(s: MatchState, team: int, superTiebreakFinal: bool)
    requires ClosingSet(s) && IsSide(team)
    ensures PointsToWin(WinSet(s, team, superTiebreakFinal), team, superTiebreakFinal)
            == MatchRest(s.sets, s.currentSet, team, superTiebreakFinal)
  {
    if s.sets.Get(team) + 1 < SetsToWin {
      assert GamesInPlay(WinSet(s, team, superTiebreakFinal)) == Pair(0, 0);
    }
  }

  lemma WinGameProgress(s: Score, team: int, superTiebreakFinal: bool)
    requires IsSide(team)
    requires s.winner == None && !s.isTiebreak && !s.isSuperTiebreak
    ensures PointsToWin(WinGame(s, team, superTiebreakFinal), team, superTiebreakFinal)
            == SetRest(s.games[s.currentSet].Bump(team), team)
               + MatchRest(s.sets, s.currentSet, team, superTiebreakFinal)
  {
    var cs := s.currentSet;
    var g := s.games[cs].Bump(team);
    var s1 := s.(games := s.games[cs := g], points := Pair(0, 0), deuceAdvantage := None);
    var r := WinGame(s, team, superTiebreakFinal);
    if g == Pair(6, 6) {
      assert r == s1.(isTiebreak := true, tiebreakPoints := Pair(0, 0));
    } else if WonBy(g, team, 6) {
      WinSetProgress(s1, team, superTiebreakFinal);
    } else {
      assert r == s1.(serving := 1 - s.serving);
      SetRestStep(g, team);
    }
  }

  lemma SuperTiebreakProgress(s: Score, team: int)
    requires IsSide(team) && s.winner == None && s.isSuperTiebreak
    ensures PointsToWin(s, team, true) >= 1
    ensures PointsToWin(SuperTiebreakPoint(s, team), team, true) == PointsToWin(s, team, true) - 1
  {
  }

  lemma TiebreakWonProgress(s: Score, team: int, superTiebreakFinal: bool)
    requires IsSide(team) && s.winner == None && s.isTiebreak
    requires WonBy(s.tiebreakPoints.Bump(team), team, 7)
    ensures TiebreakPointsNeeded(s.tiebreakPoints, team, 7) == 1
    ensures PointsToWin(TiebreakPoint(s, team, superTiebreakFinal), team, superTiebreakFinal)
            == MatchRest(s.sets, s.currentSet, team, superTiebreakFinal)
  {
    TiebreakWinClosesSet(s, team, superTiebreakFinal);
    WinSetProgress(ClosedTiebreak(s, team), team, superTiebreakFinal);
  }

  lemma TiebreakOpenProgress(s: Score, team: int, superTiebreakFinal: bool)
    requires IsSide(team) && s.winner == None && s.isTiebreak
    requires !WonBy(s.tiebreakPoints.Bump(team), team, 7)
    ensures TiebreakPointsNeeded(s.tiebreakPoints, team, 7) >= 2
    ensures PointsToWin(TiebreakPoint(s, team, superTiebreakFinal), team, superTiebreakFinal)
            == PointsToWin(s, team, superTiebreakFinal) - 1
  {
    var tb := s.tiebreakPoints.Bump(team);
    var r := TiebreakPoint(s, team, superTiebreakFinal);
    assert r == s.(tiebreakPoints := tb, serving := RotateInTiebreak(s.serving, tb.Total()));
    assert TiebreakPointsNeeded(tb, team, 7) == TiebreakPointsNeeded(s.tiebreakPoints, team, 7) - 1;
  }

  lemma RegularProgress(s: Score, team: int, superTiebreakFinal: bool)
    requires IsSide(team) && s.winner == None && !s.isTiebreak && !s.isSuperTiebreak
    ensures PointsToWin(s, team, superTiebreakFinal) >= 1
    ensures PointsToWin(RegularPoint(s, team, superTiebreakFinal), team, superTiebreakFinal)
            == PointsToWin(s, team, superTiebreakFinal) - 1
  {
    if WinsRegularGame(s, team) {
      WinGameProgress(s, team, superTiebreakFinal);
    } else {
      var r := RegularPoint(s, team, superTiebreakFinal);
      assert GamesInPlay(r) == GamesInPlay(s);
    }
  }

  /** Each point `team` wins brings it exactly one point closer to winning the match. */
  lemma PointBringsWinCloser(s: Score, team: int, superTiebreakFinal: bool)
    requires IsSide(team) && s.winner == None
    ensures PointsToWin(s, team, superTiebreakFinal) >= 1
    ensures PointsToWin(ScorePoint(s, team, superTiebreakFinal), team, superTiebreakFinal)
            == PointsToWin(s, team, superTiebreakFinal) - 1
  {
    if s.isSuperTiebreak {
      SuperTiebreakProgress(s, team);
    } else if s.isTiebreak {
      if WonBy(s.tiebreakPoints.Bump(team), team, 7) {
        TiebreakWonProgress(s, team, superTiebreakFinal);
      } else {
        TiebreakOpenProgress(s, team, superTiebreakFinal);
      }
    } else {
      RegularProgress(s, team, superTiebreakFinal);
    }
  }

  /** The state after `team` wins `n` points in a row. */
  function ScoreRun(s: Score, team: int, n: nat, superTiebreakFinal: bool): Score
    requires IsSide(team)
    decreases n
  {
    if n == 0 then s
    else ScoreRun(Apply(s, Point(team), superTiebreakFinal), team, n - 1, superTiebreakFinal)
  }

  /** A run of `n` points is one point, then a run of `n - 1`. */
  lemma ScoreRunStep(s: Score, team: int, n: nat, superTiebreakFinal: bool)
    requires IsSide(team) && n >= 1
    ensures ScoreRun(s, team, n, superTiebreakFinal)
            == ScoreRun(Apply(s, Point(team), superTiebreakFinal), team, n - 1, superTiebreakFinal)
  {
  }

  /** No score is a dead end: a side that wins every point from here wins the match,
      and it takes exactly `PointsToWin` points. */
  lemma {:induction false} WinningEveryPointWinsMatch(s: Score, team: int, n: nat, superTiebreakFinal: bool)
    requires IsSide(team) && s.winner == None
    requires n == PointsToWin(s, team, superTiebreakFinal)
    ensures ScoreRun(s, team, n, superTiebreakFinal).winner == Some(team)
    decreases n
  {
    PointBringsWinCloser(s, team, superTiebreakFinal);
    ScoreRunStep(s, team, n, superTiebreakFinal);
    var next := Apply(s, Point(team), superTiebreakFinal);
    assert next == ScorePoint(s, team, superTiebreakFinal);
    if next.winner == None {
      WinningEveryPointWinsMatch(next, team, n - 1, superTiebreakFinal);
    } else {
      assert n == 1;
    }
  }

  /** A point that completes the game is the whole-game award itself. */
  lemma GamePointIsScoreGame(s: Score, team: int, superTiebreakFinal: bool)
    requires IsSide(team)
    requires s.winner == None && !s.isTiebreak && !s.isSuperTiebreak
    requires WinsRegularGame(s, team)
    ensures GamePointsNeeded(s, team) == 1
    ensures ScorePoint(s, team, superTiebreakFinal) == ScoreGame(s, team, superTiebreakFinal)
  {
    var cleared := s.(points := Pair(0, 0), deuceAdvantage := None);
    assert WinGame(s, team, superTiebreakFinal) == WinGame(cleared, team, superTiebreakFinal);
  }

  /** A point that does not complete the game only moves the game score one step closer. */
  lemma OpenGamePoint(s: Score, team: int, superTiebreakFinal: bool)
    requires IsSide(team)
    requires s.winner == None && !s.isTiebreak && !s.isSuperTiebreak
    requires !WinsRegularGame(s, team)
    ensures var next := ScorePoint(s, team, superTiebreakFinal);
            && next.winner == None && !next.isTiebreak && !next.isSuperTiebreak
            && GamePointsNeeded(next, team) == GamePointsNeeded(s, team) - 1
            && ScoreGame(next, team, superTiebreakFinal) == ScoreGame(s, team, superTiebreakFinal)
  {
    var next := ScorePoint(s, team, superTiebreakFinal);
    assert next == s.(points := next.points, deuceAdvantage := next.deuceAdvantage);
  }

  /** `score_game` gives the same state as `team` winning the `n` points left in the game. */
  lemma {:induction false} ScoreGameIsRemainingPoints(s: Score, team: int, n: nat, superTiebreakFinal: bool)
    requires IsSide(team)
    requires s.winner == None && !s.isTiebreak && !s.isSuperTiebreak
    requires n == GamePointsNeeded(s, team)
    ensures ScoreGame(s, team, superTiebreakFinal) == ScoreRun(s, team, n, superTiebreakFinal)
    decreases n
  {
    ScoreRunStep(s, team, n, superTiebreakFinal);
    var next := Apply(s, Point(team), superTiebreakFinal);
    assert next == ScorePoint(s, team, superTiebreakFinal);
    if WinsRegularGame(s, team) {
      GamePointIsScoreGame(s, team, superTiebreakFinal);
    } else {
      OpenGamePoint(s, team, superTiebreakFinal);
      ScoreGameIsRemainingPoints(next, team, n - 1, superTiebreakFinal);
    }
  }
}
