/** The score state of one match: the dictionary built by `create_initial_state`,
    as an immutable value. Two-element lists become a `Pair` indexed by side 0 or 1. */
module ScoreState {
  import opened Wrappers

  /** Side 0 or side 1; the engine never checks this, its callers guarantee it. */
  predicate IsSide(x: int) {
    x == 0 || x == 1
  }

  /** A count per side; `a` belongs to side 0 and `b` to side 1. */
  datatype Pair = Pair(a: nat, b: nat) {
    function Get(side: int): nat
      requires IsSide(side)
    {
      if side == 0 then a else b
    }

    /** The pair with one more for `side` (the source's `pair[side] += 1`). */
    function Bump(side: int): (r: Pair)
      requires IsSide(side)
      ensures r.Get(side) == Get(side) + 1
      ensures r.Get(1 - side) == Get(1 - side)
    {
      if side == 0 then Pair(a + 1, b) else Pair(a, b + 1)
    }

    function Total(): nat {
      a + b
    }
  }

  datatype MatchState = MatchState(
    points: Pair,             // 0, 1, 2, 3 stand for 0, 15, 30, 40
    games: seq<Pair>,         // games per side, one pair per set
    sets: Pair,
    currentSet: nat,
    serving: int,
    isTiebreak: bool,
    isSuperTiebreak: bool,
    tiebreakPoints: Pair,
    winner: Option<int>,
    deuceAdvantage: Option<int>)

  /** What the engine needs of a state before it can credit a game:
      the game table has an entry for the set in progress. */
  predicate WellFormed(s: MatchState) {
    s.currentSet < |s.games|
  }

  /** The score at the start of a match: everything zero, three sets of games,
      a regular game in progress, side 0 serving and no winner. */
  function CreateInitialState(): (s: MatchState)
    ensures |s.games| == 3 && WellFormed(s)
    ensures forall k :: 0 <= k < |s.games| ==> s.games[k] == Pair(0, 0)
    ensures s.points == s.sets == s.tiebreakPoints == Pair(0, 0)
    ensures s.currentSet == 0 && s.serving == 0
    ensures !s.isTiebreak && !s.isSuperTiebreak
    ensures s.winner == None && s.deuceAdvantage == None
  {
    MatchState(
      points := Pair(0, 0),
      games := [Pair(0, 0), Pair(0, 0), Pair(0, 0)],
      sets := Pair(0, 0),
      currentSet := 0,
      serving := 0,
      isTiebreak := false,
      isSuperTiebreak := false,
      tiebreakPoints := Pair(0, 0),
      winner := None,
      deuceAdvantage := None)
  }
}
