# Tennis match scoring engine, in Dafny

This project models the match scoring engine of the tennis-scoring service (`app/scoring.py`) and proves properties of it. The engine turns a score state into the next one, point by point. It covers:

- regular games with deuce and advantage;
- the 6-6 tiebreak to 7, won by two;
- the optional deciding-set super tiebreak to 10, won by two;
- the game → set → match cascade, best of three;
- server rotation;
- the whole-game shortcut `score_game`;
- the point labels shown to spectators.

The model is organised as follows:

- `ScoreState` (state.dfy): the state dictionary as an immutable datatype `MatchState`. Each two-element list becomes a `Pair` indexed by side 0 or 1. `create_initial_state` is `CreateInitialState`.
- `Scoring` (scoring.dfy): one pure function per helper of the source. Each returns the state the helper leaves behind. The flag `super_tiebreak_final` is a parameter.
- `Engine` (engine.dfy): the copy-then-mutate form of the source.
  - A `ScoreSheet` object holds the ten entries of the dictionary as fields.
  - Its methods update those fields in the order the private helpers do. Each method is proved to leave the sheet in the state the matching `Scoring` function computes.
  - `Engine.ScorePoint` and `Engine.ScoreGame` copy the input into a fresh sheet, score it, and return the result.
- `Invariants` (invariants.dfy): `Valid`, the invariant of every reachable score.
  - It covers: counters bounded, at most one tiebreak mode, advantage only at 40-40, the set in progress being the one after the sets already won, and a winner exactly when a side has two sets.
  - It is proved to hold initially and to be kept by `score_point` and `score_game`.
  - `Score` is the subtype of states satisfying it.
  - Also here: a finished match absorbs every further call, and a point never takes anything away.
- `Progress` (progress.dfy): the engine never gets stuck.
  - `PointsToWin` is the exact number of points a side still needs.
  - Each point that side wins lowers it by one, so a side that wins every point wins the match.
  - `score_game` gives the same state as winning the remaining points of the game one by one.
- `Display` (display.dfy): `get_point_display` and `get_score_summary`. It proves that a valid score can be read back from its labels: the regular-game labels give back the points and the advantage, and the tiebreak labels give back the counts as decimal numerals.
- `Scenarios` (scenarios.dfy): concrete runs — a deuce cycle, entering and leaving the 6-6 tiebreak, and a match decided by the super tiebreak.

Points of the code's behaviour that the model keeps as written:

- `score_game` during a tiebreak returns its input unchanged. It does not signal an invalid operation.
- The side argument is never checked, so `IsSide(team)` is a precondition rather than an error path.
- Winning the super tiebreak neither credits a game nor resets the tiebreak counts.
- Tiebreak counts are stored by side, so side 1 winning the super tiebreak 10-8 leaves the counts `Pair(8, 10)`, as in `Scenarios.DecidingSuperTiebreak`.
- From deuce a side needs two points for the game: the first gives advantage, the second the game (`Scenarios.DeuceCycle`).

## Model

| member | source | states |
|---|---|---|
| ScoreState.CreateInitialState | app/scoring.py:19-32 | the fresh score: three 0-0 sets, all counters zero, regular game, side 0 serving, no winner and no advantage |
| Scoring.RotateInTiebreak | app/scoring.py:124-128 | in either tiebreak the serve changes hands exactly when the running total of points, this one included, is odd |
| Scoring.WinSet | app/scoring.py:159-180 | the set is credited and the game score cleared. The match is won exactly when the side reaches two sets, and then the set index, server, mode and counts stay as they were. Otherwise the next set starts: the super tiebreak begins exactly when it is set index 2 and the flag is on (counts reset, same server), and otherwise the server changes |
| Scoring.WinGame | app/scoring.py:99-118 | one game is added for the side in the set in progress, and the points and advantage are cleared. At exactly 6-6 the tiebreak starts with counts 0-0 and the same server, and nothing else changes. At six or more with a lead of two the result is `WinSet` of that cleared score. Otherwise only the server changes |
| Scoring.RegularPoint | app/scoring.py:74-96 | a point at 40 against less than 40, or from advantage, is `WinGame`. Otherwise only the points and advantage change: below 40 the side's count goes up by one and the advantage stays as it was, and at 40-40 the opponent's advantage is cancelled or the side gains advantage |
| Scoring.TiebreakPoint | app/scoring.py:121-138 | the count goes up by one and the server follows `RotateInTiebreak`. Reaching 7 with a lead of two adds the game, leaves tiebreak mode, resets the counts and credits the set |
| Scoring.ClosedTiebreak | app/scoring.py:131-137 | the score a won tiebreak hands on: the game credited, tiebreak mode left, the counts reset and the serve rotated for the final point; sets, set index, points, winner, super tiebreak flag and advantage as they were |
| Scoring.TiebreakWinIsSetWin | app/scoring.py:131-138 | taking the tiebreak is `_win_set` applied to that score |
| Scoring.SuperTiebreakPoint | app/scoring.py:141-156 | the count goes up by one with the same rotation rule, and games, points and set index are untouched. The 6-6 tiebreak flag and the advantage are never touched. Reaching 10 with a lead of two credits the set, sets the winner and leaves the mode. Otherwise sets, winner and mode are unchanged |
| Scoring.ScorePoint | app/scoring.py:54-71 | a decided match comes back unchanged, and a point can only leave the winner as it was or make the scoring side the winner |
| Scoring.ScoreGame | app/scoring.py:183-204 | a decided match, or one in either tiebreak mode, comes back unchanged |
| Engine.ScoreSheet.constructor | app/scoring.py:62 | the copy holds exactly the given score |
| Engine.ScoreSheet.WinSet | app/scoring.py:159-180 | updating the fields in place gives `Scoring.WinSet` of the old score |
| Engine.ScoreSheet.WinGame | app/scoring.py:99-118 | updating the fields in place gives `Scoring.WinGame` of the old score |
| Engine.ScoreSheet.ScoreRegularPoint | app/scoring.py:74-96 | updating the fields in place gives `Scoring.RegularPoint` of the old score |
| Engine.ScoreSheet.CountTiebreakPoint | app/scoring.py:123-128 | the count goes up by one and the server follows `RotateInTiebreak`; nothing else changes |
| Engine.ScoreSheet.ScoreTiebreakPoint | app/scoring.py:121-138 | updating the fields in place gives `Scoring.TiebreakPoint` of the old score |
| Engine.ScoreSheet.ScoreSuperTiebreakPoint | app/scoring.py:141-156 | updating the fields in place gives `Scoring.SuperTiebreakPoint` of the old score |
| Engine.ScorePoint | app/scoring.py:54-71 | copy-then-mutate returns `Scoring.ScorePoint` of the input |
| Engine.ScoreGame | app/scoring.py:183-204 | copy-then-mutate returns `Scoring.ScoreGame` of the input |
| Invariants.InitialStateValid | app/scoring.py:19-32 | the fresh score satisfies the invariant |
| Invariants.WinSetKeepsValid | app/scoring.py:159-180 | closing a set from a score in play leads to a valid score |
| Invariants.WinGameKeepsValid | app/scoring.py:99-118 | crediting a game in a regular game keeps the invariant |
| Invariants.TiebreakWinClosesSet | app/scoring.py:131-138 | a won tiebreak leaves a score from which the set can be closed, and the point is that set win |
| Invariants.TiebreakPointKeepsValid | app/scoring.py:121-138 | a tiebreak point keeps the invariant |
| Invariants.SuperTiebreakPointKeepsValid | app/scoring.py:141-156 | a super tiebreak point keeps the invariant |
| Invariants.RegularPointKeepsValid | app/scoring.py:74-96 | a regular-game point keeps the invariant, so points stay within 0..3 and advantage exists only at 40-40 |
| Invariants.ScorePointKeepsValid | app/scoring.py:54-71 | `score_point` keeps the invariant |
| Invariants.ScoreGameKeepsValid | app/scoring.py:183-204 | `score_game` keeps the invariant |
| Invariants.ValidBounds | app/scoring.py:159-180 | a valid score has at most one tiebreak mode, sets and set index within 0..2, points within 0..3, advantage only at 40-40, at most 7 games a side per set, and a winner exactly when a side has two sets |
| Invariants.ReachableScoresAreBounded | app/scoring.py:54-204 | every score reached from the initial state by any run of `score_point` and `score_game` calls obeys those bounds |
| Invariants.DecidedMatchAbsorbs | app/scoring.py:59-60 | once there is a winner, no run of further points or games changes the score |
| Invariants.PlayStaysBounded | app/scoring.py:54-204 | any run of `score_point` and `score_game` calls from a valid score ends within the bounds of `ValidBounds` |
| Invariants.PointOnlyAdds | app/scoring.py:54-180 | a point never lowers the sets, the set index or the games of the set in progress, and leaves the other sets' games alone |
| Progress.SetRestStep | app/scoring.py:99-118 | in a set still in play, the points needed for the set are one game of four points plus the rest from the next game score |
| Progress.WinSetProgress | app/scoring.py:159-180 | after a set is closed, the points the side needs are exactly what the rest of the match costs it |
| Progress.WinGameProgress | app/scoring.py:99-118 | after a game is credited, the points the side needs are the rest of the set plus the rest of the match |
| Progress.SuperTiebreakProgress | app/scoring.py:141-156 | a super tiebreak point for a side brings its points-to-win down by exactly one |
| Progress.TiebreakWonProgress | app/scoring.py:131-138 | the tiebreak's last needed point leaves exactly the rest of the match |
| Progress.TiebreakOpenProgress | app/scoring.py:121-138 | a tiebreak point that does not end the tiebreak brings the points-to-win down by exactly one |
| Progress.RegularProgress | app/scoring.py:74-96 | a regular-game point for a side brings its points-to-win down by exactly one |
| Progress.PointBringsWinCloser | app/scoring.py:54-71 | while the match is undecided, a side needs at least one point, and each point it wins brings its points-to-win down by exactly one |
| Progress.WinningEveryPointWinsMatch | app/scoring.py:54-180 | no valid score is a dead end: a side that wins every point wins the match after exactly `PointsToWin` points |
| Progress.GamePointIsScoreGame | app/scoring.py:183-204 | a point that completes the game gives the same state as `score_game` |
| Progress.OpenGamePoint | app/scoring.py:74-96 | a point that does not complete the game stays in the regular game, needs one point fewer, and leaves the `score_game` result unchanged |
| Progress.ScoreGameIsRemainingPoints | app/scoring.py:183-204 | `score_game` equals the side winning the points left in the game one by one, so it shares the point-scoring game-win cascade |
| Display.DecimalString | app/scoring.py:38 | `str` of a count is a non-empty string of digits with no leading zero |
| Display.DecimalRoundTrip | app/scoring.py:38 | the count can be read back from its decimal string |
| Display.PointDisplay | app/scoring.py:35-51 | in either tiebreak mode both labels are decimal numerals. Otherwise both come from "0", "15", "30", "40", "AD" and "-" |
| Display.GetScoreSummary | app/scoring.py:207-220 | the summary passes sets, games, serving, both tiebreak flags, set index and winner through unchanged; its point labels are decimal numerals in either tiebreak and come from "0", "15", "30", "40", "AD" and "-" otherwise |
| Display.SummaryShowsScore | app/scoring.py:207-220 | the summary passes sets, games, serving, flags, set index and winner through. For a valid score its labels give back the points and advantage in a regular game, and the two counts in a tiebreak |
| Display.InitialSummary | app/scoring.py:207-220 | the summary of a fresh match shows "0"/"0", no sets and no winner |
| Scenarios.DeuceCycle | app/scoring.py:74-96 | from deuce: advantage, back to deuce, advantage again, then the game |
| Scenarios.TiebreakEntryAndExit | app/scoring.py:99-138 | at 5-6 a game for side 0 starts the tiebreak with the same server, and 7-5 in it takes the set 7-6 |
| Scenarios.DecidingSuperTiebreak | app/scoring.py:141-180 | with the flag on, one set all starts the super tiebreak at once, and side 1 taking it 10-8 wins the match two sets to one |

## Left out

- `app/main.py`, `app/auth.py`, `app/models.py`, `app/schemas.py` are not part of this model. They hold web routes, database access, WebSocket broadcast, authentication and request shapes, which are I/O around the engine.
- `copy.deepcopy` is not modelled as a library call. The pure functions return new values, and the engine methods copy into a fresh `ScoreSheet` through its constructor. The Python lists inside the dictionary are values of the sheet's fields here, so aliasing between the copy and the original cannot arise and is not modelled.
- Every point requires `WellFormed`, even points that credit no game: the set index must name an entry of the game table. The source indexes `games[current_set]` only when a game is credited and would raise `IndexError` past the end. Every valid score satisfies the condition.
- Counters are `nat`. A state holding negative counts, which the source never produces, cannot be written down, so Python's negative list indexing in the labels is not modelled.
- `serving` is an `int` flipped with `1 - serving` as in the source. Only `Valid` restricts it to 0 or 1.
- The code never checks that the side is 0 or 1, and neither does the model: the side is a precondition, so no error path for other values is modelled.
- Scoring.ScoreGame: the contract states only the unchanged cases. What it does otherwise is stated as the equality with the game's remaining points (`Progress.ScoreGameIsRemainingPoints`) and with a game-winning point (`Progress.GamePointIsScoreGame`).
- Display.SummaryShowsScore: the read-back of the labels is stated for valid scores only. Outside them, for example points above 3 without an advantage, the labels are not injective.
