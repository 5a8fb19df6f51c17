/** The invariant every score reached from `create_initial_state` satisfies, and the proofs
    that `score_point` and `score_game` keep it: counters stay bounded, at most one tiebreak
    mode is active, advantage is only held at 40-40, and a decided match absorbs all input. */
module Invariants {
  import opened Wrappers
  import opened ScoreState
  import opened Scoring

  predicate OptionalSide(o: Option<int>) {
    o.Some? ==> IsSide(o.value)
  }

  /** A set still played in regular games: not 6-6 and nobody has six with a lead of two. */
  predicate SetInPlay(g: Pair) {
    g.a <= 6 && g.b <= 6 && g != Pair(6, 6) && !WonBy(g, 0, 6) && !WonBy(g, 1, 6)
  }

  /** A tiebreak to `target` that neither side has won yet. */
  predicate TiebreakInPlay(tb: Pair, target: nat) {
    !WonBy(tb, 0, target) && !WonBy(tb, 1, target)
  }

  predicate GameBounded(g: Pair) {
    g.a <= 7 && g.b <= 7
  }

  /** The game table: three sets, none past 7 games a side, and no games yet in the sets
      after the one in progress. */
  predicate GameTable(games: seq<Pair>, currentSet: nat) {
    && |games| == 3 && currentSet <= 2
    && GameBounded(games[0]) && GameBounded(games[1]) && GameBounded(games[2])
    && (currentSet < 1 ==> games[1] == Pair(0, 0))
    && (currentSet < 2 ==> games[2] == Pair(0, 0))
  }

  /** An undecided match: the set in progress is the next one after the sets already won,
      and the mode flags agree with the game score of that set. */
  predicate InPlay(s: MatchState)
    requires |s.games| == 3 && s.currentSet <= 2
  {
    && s.sets.a < SetsToWin && s.sets.b < SetsToWin
    && s.currentSet == s.sets.a + s.sets.b
    && if s.isSuperTiebreak then
         && s.currentSet == 2 && s.games[2] == Pair(0, 0) && s.points == Pair(0, 0)
         && TiebreakInPlay(s.tiebreakPoints, 10)
       else if s.isTiebreak then
         && s.games[s.currentSet] == Pair(6, 6) && s.points == Pair(0, 0)
         && TiebreakInPlay(s.tiebreakPoints, 7)
       else
         SetInPlay(s.games[s.currentSet]) && s.tiebreakPoints == Pair(0, 0)
  }

  predicate Valid(s: MatchState) {
    && GameTable(s.games, s.currentSet)
    && IsSide(s.serving)
    && OptionalSide(s.winner) && OptionalSide(s.deuceAdvantage)
    && !(s.isTiebreak && s.isSuperTiebreak)
    && s.points.a <= 3 && s.points.b <= 3
    && (s.deuceAdvantage != None ==> s.points == Pair(3, 3))
    && s.sets.a <= SetsToWin && s.sets.b <= SetsToWin
    && match s.winner
       case None => InPlay(s)
       case Some(w) =>
         && s.sets.Get(w) == SetsToWin && s.sets.Get(1 - w) < SetsToWin
         && !s.isTiebreak && !s.isSuperTiebreak
  }

  /** A score the invariant holds of. */
  type Score = s: MatchState | Valid(s) witness CreateInitialState()

  /** The score every match starts from. */
  const Start: Score := CreateInitialState()

  lemma InitialStateValid()
    ensures Valid(CreateInitialState())
  {
  }

  /** What holds of the state handed to `_win_set` by `_win_game` and by a won tiebreak. */
  predicate ClosingSet(s: MatchState) {
    && GameTable(s.games, s.currentSet)
    && IsSide(s.serving) && s.winner == None && s.deuceAdvantage == None
    && !s.isTiebreak && !s.isSuperTiebreak && s.tiebreakPoints == Pair(0, 0)
    && s.sets.a < SetsToWin && s.sets.b < SetsToWin
    && s.currentSet == s.sets.a + s.sets.b
  }

  lemma WinSetKeepsValid(s: MatchState, team: int, superTiebreakFinal: bool)
    requires ClosingSet(s) && IsSide(team)
    ensures Valid(WinSet(s, team, superTiebreakFinal))
  {
    var r := WinSet(s, team, superTiebreakFinal);
    if s.sets.Get(team) + 1 < SetsToWin {
      assert s.currentSet + 1 <= 2;
      assert r.games[r.currentSet] == Pair(0, 0);
    }
  }

  lemma WinGameKeepsValid(s: Score, team: int, superTiebreakFinal: bool)
    requires IsSide(team)
    requires s.winner == None && !s.isTiebreak && !s.isSuperTiebreak
    ensures Valid(WinGame(s, team, superTiebreakFinal))
  {
    var cs := s.currentSet;
    var g := s.games[cs].Bump(team);
    var s1 := s.(games := s.games[cs := g], points := Pair(0, 0), deuceAdvantage := None);
    if g.Get(team) == 6 && g.Get(1 - team) == 6 {
    } else if g.Get(team) >= 6 && g.Get(team) - g.Get(1 - team) >= 2 {
      WinSetKeepsValid(s1, team, superTiebreakFinal);
    } else {
      assert g.Get(team) <= 6;
      assert SetInPlay(g);
    }
  }

  /** A won tiebreak leaves a score from which the set can be closed. */
  lemma TiebreakWinClosesSet(s: Score, team: int, superTiebreakFinal: bool)
    requires IsSide(team) && s.winner == None && s.isTiebreak
    requires WonBy(s.tiebreakPoints.Bump(team), team, 7)
    ensures ClosingSet(ClosedTiebreak(s, team))
    ensures TiebreakPoint(s, team, superTiebreakFinal) == WinSet(ClosedTiebreak(s, team), team, superTiebreakFinal)
  {
    TiebreakWinIsSetWin(s, team, superTiebreakFinal);
  }

  lemma TiebreakPointKeepsValid(s: Score, team: int, superTiebreakFinal: bool)
    requires IsSide(team) && s.winner == None && s.isTiebreak
    ensures Valid(TiebreakPoint(s, team, superTiebreakFinal))
  {
    var tb := s.tiebreakPoints.Bump(team);
    if WonBy(tb, team, 7) {
      TiebreakWinClosesSet(s, team, superTiebreakFinal);
      WinSetKeepsValid(ClosedTiebreak(s, team), team, superTiebreakFinal);
    } else {
      assert !WonBy(tb, 1 - team, 7);
    }
  }

  lemma SuperTiebreakPointKeepsValid(s: Score, team: int)
    requires IsSide(team) && s.winner == None && s.isSuperTiebreak
    ensures Valid(SuperTiebreakPoint(s, team))
  {
    var tb := s.tiebreakPoints.Bump(team);
    if !WonBy(tb, team, 10) {
      assert !WonBy(tb, 1 - team, 10);
    }
  }

  lemma RegularPointKeepsValid(s: Score, team: int, superTiebreakFinal: bool)
    requires IsSide(team) && s.winner == None
    requires !s.isTiebreak && !s.isSuperTiebreak
    ensures Valid(RegularPoint(s, team, superTiebreakFinal))
  {
    if WinsRegularGame(s, team) {
      WinGameKeepsValid(s, team, superTiebreakFinal);
    }
  }

  /** `score_point` keeps the invariant. */
  lemma ScorePointKeepsValid(s: Score, team: int, superTiebreakFinal: bool)
    requires IsSide(team)
    ensures Valid(ScorePoint(s, team, superTiebreakFinal))
  {
    if s.winner != None {
    } else if s.isSuperTiebreak {
      SuperTiebreakPointKeepsValid(s, team);
    } else if s.isTiebreak {
      TiebreakPointKeepsValid(s, team, superTiebreakFinal);
    } else {
      RegularPointKeepsValid(s, team, superTiebreakFinal);
    }
  }

  /** `score_game` keeps the invariant. */
  lemma ScoreGameKeepsValid(s: Score, team: int, superTiebreakFinal: bool)
    requires IsSide(team)
    ensures Valid(ScoreGame(s, team, superTiebreakFinal))
  {
    if s.winner == None && !s.isTiebreak && !s.isSuperTiebreak {
      WinGameKeepsValid(s.(points := Pair(0, 0), deuceAdvantage := None), team, superTiebreakFinal);
    }
  }

  /** One scoring call as the match-management service issues it. */
  datatype Award = Point(side: int) | Game(side: int)

  predicate AllSides(awards: seq<Award>) {
    forall i :: 0 <= i < |awards| ==> IsSide(awards[i].side)
  }

  function Apply(s: Score, award: Award, superTiebreakFinal: bool): Score
    requires IsSide(award.side)
  {
    match award
    case Point(side) =>
      ScorePointKeepsValid(s, side, superTiebreakFinal);
      ScorePoint(s, side, superTiebreakFinal)
    case Game(side) =>
      ScoreGameKeepsValid(s, side, superTiebreakFinal);
      ScoreGame(s, side, superTiebreakFinal)
  }

  /** The state after a run of awards, each applied to the result of the previous one. */
  function Play(s: Score, awards: seq<Award>, superTiebreakFinal: bool): Score
    requires AllSides(awards)
    decreases |awards|
  {
    if awards == [] then s
    else Play(Apply(s, awards[0], superTiebreakFinal), awards[1..], superTiebreakFinal)
  }

  /** The bounds of the scoring rules: at most one tiebreak mode, at most two sets a side,
      points within 0..3 with advantage only at 40-40, at most seven games a side in each of
      the three sets, and a winner exactly when a side has two sets. */
  predicate Bounded(s: MatchState) {
    && !(s.isTiebreak && s.isSuperTiebreak)
    && s.sets.a <= 2 && s.sets.b <= 2 && s.currentSet <= 2
    && s.points.a <= 3 && s.points.b <= 3
    && (s.deuceAdvantage != None ==> s.points == Pair(3, 3))
    && |s.games| == 3
    && (forall k :: 0 <= k < 3 ==> s.games[k].a <= 7 && s.games[k].b <= 7)
    && (s.winner != None <==> s.sets.a == 2 || s.sets.b == 2)
  }

  /** The bounds the invariant implies. */
  lemma ValidBounds(s: Score)
    ensures Bounded(s)
  {
  }

  /** Every score reachable from the initial state obeys the bounds of the scoring rules. */
  lemma ReachableScoresAreBounded(awards: seq<Award>, superTiebreakFinal: bool)
    requires AllSides(awards)
    ensures Bounded(Play(Start, awards, superTiebreakFinal))
  {
    PlayStaysBounded(Start, awards, superTiebreakFinal);
  }

  /** Any run of awards from a valid score ends within the bounds. */
  lemma PlayStaysBounded(s: Score, awards: seq<Award>, superTiebreakFinal: bool)
    requires AllSides(awards)
    ensures Bounded(Play(s, awards, superTiebreakFinal))
  {
    ValidBounds(Play(s, awards, superTiebreakFinal));
  }

  /** Once the match has a winner, no run of further points or games changes anything. */
  lemma {:induction false} DecidedMatchAbsorbs(s: Score, awards: seq<Award>, superTiebreakFinal: bool)
    requires AllSides(awards) && s.winner != None
    ensures Play(s, awards, superTiebreakFinal) == s
    decreases |awards|
  {
    if awards != [] {
      DecidedMatchAbsorbs(s, awards[1..], superTiebreakFinal);
    }
  }

  /** A point never takes anything away: sets and the current set only grow, the games of
      the set in progress only grow, and the games of every other set are left as they are. */
  lemma PointOnlyAdds(s: Score, team: int, superTiebreakFinal: bool)
    requires IsSide(team)
    ensures var r := ScorePoint(s, team, superTiebreakFinal);
            && r.sets.a >= s.sets.a && r.sets.b >= s.sets.b
            && r.currentSet >= s.currentSet
            && |r.games| == 3
            && r.games[s.currentSet].a >= s.games[s.currentSet].a
            && r.games[s.currentSet].b >= s.games[s.currentSet].b
            && (forall k :: 0 <= k < 3 && k != s.currentSet ==> r.games[k] == s.games[k])
            && (s.winner != None ==> r.winner == s.winner)
  {
    if s.winner == None && !s.isSuperTiebreak {
      var cs := s.currentSet;
      var bumped := s.games[cs := s.games[cs].Bump(team)];
      if s.isTiebreak {
        if WonBy(s.tiebreakPoints.Bump(team), team, 7) {
          TiebreakWinIsSetWin(s, team, superTiebreakFinal);
          assert ClosedTiebreak(s, team).games == bumped;
        }
      } else if WinsRegularGame(s, team) {
        var g := bumped[cs];
        var cleared := s.(games := bumped, points := Pair(0, 0), deuceAdvantage := None);
        if WonBy(g, team, 6) && g != Pair(6, 6) {
          assert WinGame(s, team, superTiebreakFinal) == WinSet(cleared, team, superTiebreakFinal);
        }
      }
    }
  }
}
