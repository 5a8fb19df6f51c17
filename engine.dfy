/** The copy-then-mutate form of the engine. `score_point` and `score_game` deep-copy the
    state dictionary and let the private helpers update the copy field by field; here the
    copy is a `ScoreSheet` object whose methods update its fields in the same order, each
    proved to leave the sheet in the state the matching `Scoring` function computes. */
module Engine {
  import opened Wrappers
  import opened ScoreState
  import Scoring

  /** A mutable copy of the score dictionary. */
  class ScoreSheet {
    var points: Pair
    var games: seq<Pair>
    var sets: Pair
    var currentSet: nat
    var serving: int
    var isTiebreak: bool
    var isSuperTiebreak: bool
    var tiebreakPoints: Pair
    var winner: Option<int>
    var deuceAdvantage: Option<int>

    /** The score the sheet currently holds. */
    function State(): MatchState
      reads this
    {
      MatchState(points, games, sets, currentSet, serving, isTiebreak, isSuperTiebreak,
                 tiebreakPoints, winner, deuceAdvantage)
    }

    /** `copy.deepcopy(state)`. */
    constructor (s: MatchState)
      ensures State() == s
    {
      points := s.points;
      games := s.games;
      sets := s.sets;
      currentSet := s.currentSet;
      serving := s.serving;
      isTiebreak := s.isTiebreak;
      isSuperTiebreak := s.isSuperTiebreak;
      tiebreakPoints := s.tiebreakPoints;
      winner := s.winner;
      deuceAdvantage := s.deuceAdvantage;
    }

    /** `_win_set`. */
    method WinSet(team: int, superTiebreakFinal: bool)
      requires IsSide(team)
      modifies this
      ensures State() == Scoring.WinSet(old(State()), team, superTiebreakFinal)
    {
      sets := sets.Bump(team);
      points := Pair(0, 0);
      if sets.Get(team) >= Scoring.SetsToWin {
        winner := Some(team);
        return;
      }
      currentSet := currentSet + 1;
      if currentSet == 2 && superTiebreakFinal {
        isSuperTiebreak := true;
        tiebreakPoints := Pair(0, 0);
      } else {
        serving := 1 - serving;
      }
    }

    /** `_win_game`. */
    method WinGame(team: int, superTiebreakFinal: bool)
      requires WellFormed(State()) && IsSide(team)
      modifies this
      ensures State() == Scoring.WinGame(old(State()), team, superTiebreakFinal)
    {
      var cs := currentSet;
      games := games[cs := games[cs].Bump(team)];
      points := Pair(0, 0);
      deuceAdvantage := None;
      var gamesTeam: int := games[cs].Get(team);
      var gamesOther: int := games[cs].Get(1 - team);
      if gamesTeam == 6 && gamesOther == 6 {
        isTiebreak := true;
        tiebreakPoints := Pair(0, 0);
      } else if gamesTeam >= 6 && gamesTeam - gamesOther >= 2 {
        WinSet(team, superTiebreakFinal);
      } else {
        serving := 1 - serving;
      }
    }

    /** `_score_regular_point`. */
    method ScoreRegularPoint(team: int, superTiebreakFinal: bool)
      requires WellFormed(State()) && IsSide(team)
      modifies this
      ensures State() == Scoring.RegularPoint(old(State()), team, superTiebreakFinal)
    {
      var other := 1 - team;
      var pTeam := points.Get(team);
      var pOther := points.Get(other);
      if pTeam >= 3 && pOther >= 3 {
        if deuceAdvantage == Some(team) {
          WinGame(team, superTiebreakFinal);
        } else if deuceAdvantage == Some(other) {
          deuceAdvantage := None;
        } else {
          deuceAdvantage := Some(team);
        }
      } else if pTeam >= 3 {
        WinGame(team, superTiebreakFinal);
      } else {
        points := points.Bump(team);
      }
    }

    /** The bookkeeping both tiebreak helpers start with: count the point for `team`, then
        hand the serve over on the first point and on every second point after it. */
    method CountTiebreakPoint(team: int)
      requires IsSide(team)
      modifies this
      ensures State() == old(State()).(tiebreakPoints := old(tiebreakPoints).Bump(team),
                                       serving := Scoring.RotateInTiebreak(old(serving), old(tiebreakPoints).Total() + 1))
    {
      tiebreakPoints := tiebreakPoints.Bump(team);
      var total := tiebreakPoints.a + tiebreakPoints.b;
      if total == 1 || (total > 1 && (total - 1) % 2 == 0) {
        serving := 1 - serving;
      }
    }

    /** `_score_tiebreak_point`. */
    method ScoreTiebreakPoint(team: int, superTiebreakFinal: bool)
      requires WellFormed(State()) && IsSide(team)
      modifies this
      ensures State() == Scoring.TiebreakPoint(old(State()), team, superTiebreakFinal)
    {
      ghost var before := State();
      CountTiebreakPoint(team);
      if tiebreakPoints.Get(team) >= 7 {
        if tiebreakPoints.Get(team) - tiebreakPoints.Get(1 - team) >= 2 {
          var cs := currentSet;
          games := games[cs := games[cs].Bump(team)];
          isTiebreak := false;
          tiebreakPoints := Pair(0, 0);
          assert State() == Scoring.ClosedTiebreak(before, team);
          Scoring.TiebreakWinIsSetWin(before, team, superTiebreakFinal);
          WinSet(team, superTiebreakFinal);
        }
      }
    }

    /** `_score_super_tiebreak_point`. */
    method ScoreSuperTiebreakPoint(team: int)
      requires IsSide(team)
      modifies this
      ensures State() == Scoring.SuperTiebreakPoint(old(State()), team)
    {
      CountTiebreakPoint(team);
      if tiebreakPoints.Get(team) >= 10 {
        if tiebreakPoints.Get(team) - tiebreakPoints.Get(1 - team) >= 2 {
          sets := sets.Bump(team);
          isSuperTiebreak := false;
          winner := Some(team);
        }
      }
    }
  }

  /** `score_point`: a decided match comes back as it is; otherwise a copy is scored in
      place and returned. The input is never changed. */
  method ScorePoint(state: MatchState, team: int, superTiebreakFinal: bool) returns (r: MatchState)
    requires state.winner == None ==> WellFormed(state)
    requires IsSide(team)
    ensures r == Scoring.ScorePoint(state, team, superTiebreakFinal)
  {
    if state.winner != None {
      return state;
    }
    var sheet := new ScoreSheet(state);
    if sheet.isSuperTiebreak {
      sheet.ScoreSuperTiebreakPoint(team);
    } else if sheet.isTiebreak {
      sheet.ScoreTiebreakPoint(team, superTiebreakFinal);
    } else {
      sheet.ScoreRegularPoint(team, superTiebreakFinal);
    }
    r := sheet.State();
  }

  /** `score_game`: refused (the input returned) on a decided match or during a tiebreak;
      otherwise a copy has its game score cleared and goes through `_win_game`. */
  method ScoreGame(state: MatchState, team: int, superTiebreakFinal: bool) returns (r: MatchState)
    requires state.winner == None && !state.isTiebreak && !state.isSuperTiebreak ==> WellFormed(state)
    requires IsSide(team)
    ensures r == Scoring.ScoreGame(state, team, superTiebreakFinal)
  {
    if state.winner != None {
      return state;
    }
    if state.isTiebreak || state.isSuperTiebreak {
      return state;
    }
    var sheet := new ScoreSheet(state);
    sheet.points := Pair(0, 0);
    sheet.deuceAdvantage := None;
    sheet.WinGame(team, superTiebreakFinal);
    r := sheet.State();
  }
}
