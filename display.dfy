/** The read-only projection of a score for spectators: `get_point_display` and
    `get_score_summary`. */
module Display {
  import opened Wrappers
  import opened ScoreState
  import opened Invariants

  /** Labels of 0, 1, 2 and 3 points in a regular game. */
  const PointNames: seq<string> := ["0", "15", "30", "40"]

  predicate IsDigit(c: char) {
    '0' <= c <= '9'
  }

  predicate AllDigits(r: string) {
    forall i :: 0 <= i < |r| ==> IsDigit(r[i])
  }

  function DigitChar(d: nat): (c: char)
    requires d < 10
    ensures IsDigit(c)
  {
    ('0' as int + d) as char
  }

  /** The decimal numeral of a count, as Python's `str` writes a non-negative int. */
  function DecimalString(n: nat): (r: string)
    ensures |r| >= 1 && AllDigits(r)
    ensures r[0] != '0' || r == "0"
    decreases n
  {
    if n < 10 then [DigitChar(n)] else DecimalString(n / 10) + [DigitChar(n % 10)]
  }

  /** The number a string of decimal digits stands for. */
  function DecimalValue(r: string): nat
    requires AllDigits(r)
    decreases |r|
  {
    if r == [] then 0 else DecimalValue(r[..|r| - 1]) * 10 + (r[|r| - 1] as int - '0' as int)
  }

  lemma {:induction false} DecimalRoundTrip(n: nat)
    ensures DecimalValue(DecimalString(n)) == n
    decreases n
  {
    if n >= 10 {
      DecimalRoundTrip(n / 10);
      var r := DecimalString(n);
      assert r[..|r| - 1] == DecimalString(n / 10);
    }
  }

  function Min(x: nat, y: nat): nat {
    if x <= y then x else y
  }

  /** `get_point_display`: raw tiebreak counts in either tiebreak mode; "40"/"40", "AD"/"-"
      or "-"/"AD" once both sides have 40; otherwise the 0/15/30/40 names. */
  function PointDisplay(s: MatchState): (labels: (string, string))
    ensures s.isTiebreak || s.isSuperTiebreak ==> AllDigits(labels.0) && AllDigits(labels.1)
    ensures !s.isTiebreak && !s.isSuperTiebreak ==>
              labels.0 in PointNames + ["AD", "-"] && labels.1 in PointNames + ["AD", "-"]
  {
    if s.isTiebreak || s.isSuperTiebreak then
      (DecimalString(s.tiebreakPoints.a), DecimalString(s.tiebreakPoints.b))
    else if s.points.a >= 3 && s.points.b >= 3 then
      if s.deuceAdvantage == Some(0) then ("AD", "-")
      else if s.deuceAdvantage == Some(1) then ("-", "AD")
      else ("40", "40")
    else
      (PointNames[Min(s.points.a, 3)], PointNames[Min(s.points.b, 3)])
  }

  /** The number of points a regular-game label stands for. */
  function LabelPoints(name: string): Option<nat> {
    if name == "0" then Some(0)
    else if name == "15" then Some(1)
    else if name == "30" then Some(2)
    else if name == "40" then Some(3)
    else None
  }

  /** Reads the game score and the advantage back from a pair of regular-game labels. */
  function ReadRegularDisplay(labels: (string, string)): Option<(Pair, Option<int>)> {
    if labels == ("AD", "-") then Some((Pair(3, 3), Some(0)))
    else if labels == ("-", "AD") then Some((Pair(3, 3), Some(1)))
    else
      match (LabelPoints(labels.0), LabelPoints(labels.1))
      case (Some(p), Some(q)) => Some((Pair(p, q), None))
      case _ => None
  }

  /** The summary `get_score_summary` builds; the point labels are its `points` entry. */
  datatype ScoreSummary = ScoreSummary(
    sets: Pair,
    games: seq<Pair>,
    pointA: string,
    pointB: string,
    serving: int,
    isTiebreak: bool,
    isSuperTiebreak: bool,
    currentSet: nat,
    winner: Option<int>)

  /** `get_score_summary`: the point labels plus the state's own counters and flags. */
  function GetScoreSummary(s: MatchState): (r: ScoreSummary)
    ensures r.sets == s.sets && r.games == s.games && r.winner == s.winner
    ensures r.serving == s.serving && r.currentSet == s.currentSet
    ensures r.isTiebreak == s.isTiebreak && r.isSuperTiebreak == s.isSuperTiebreak
    ensures s.isTiebreak || s.isSuperTiebreak ==> AllDigits(r.pointA) && AllDigits(r.pointB)
    ensures !s.isTiebreak && !s.isSuperTiebreak ==>
              r.pointA in PointNames + ["AD", "-"] && r.pointB in PointNames + ["AD", "-"]
  {
    var labels := PointDisplay(s);
    ScoreSummary(
      sets := s.sets,
      games := s.games,
      pointA := labels.0,
      pointB := labels.1,
      serving := s.serving,
      isTiebreak := s.isTiebreak,
      isSuperTiebreak := s.isSuperTiebreak,
      currentSet := s.currentSet,
      winner := s.winner)
  }

  /** The summary loses nothing of a valid score that is in play: in a regular game the
      labels give back the points and the advantage, in a tiebreak the two counts. */
  lemma SummaryShowsScore(s: Score)
    ensures var r := GetScoreSummary(s);
            && r.sets == s.sets && r.games == s.games && r.winner == s.winner
            && r.serving == s.serving && r.currentSet == s.currentSet
            && r.isTiebreak == s.isTiebreak && r.isSuperTiebreak == s.isSuperTiebreak
            && (!s.isTiebreak && !s.isSuperTiebreak ==>
                  ReadRegularDisplay((r.pointA, r.pointB)) == Some((s.points, s.deuceAdvantage)))
            && (s.isTiebreak || s.isSuperTiebreak ==>
                  DecimalValue(r.pointA) == s.tiebreakPoints.a && DecimalValue(r.pointB) == s.tiebreakPoints.b)
  {
    if s.isTiebreak || s.isSuperTiebreak {
      DecimalRoundTrip(s.tiebreakPoints.a);
      DecimalRoundTrip(s.tiebreakPoints.b);
    }
  }

  /** The summary of a fresh match: "0"/"0", no sets, no winner. */
  lemma InitialSummary()
    ensures var r := GetScoreSummary(CreateInitialState());
            r.pointA == "0" && r.pointB == "0" && r.sets == Pair(0, 0) && r.winner == None
  {
  }
}
