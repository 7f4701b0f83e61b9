# Points table simulator — a Dafny model of the standings calculator

This project models the standings calculator of the points-table simulator. That is the
`PointsTableSimulator` class: its constructor, the constructor's column check and the
`current_points_table` property. A tournament schedule is a sequence of matches. Each match
has a match number, a home team, an away team and a winner cell. The cell holds a team name,
the sentinel `"Draw"`, the sentinel `"No Result"`, or nothing (a match not yet played).
The simulator builds one row per team, with these fields:

- matches played, won, lost, drawn, with no result, and remaining;
- points, from the scoring rule (points for a win, a draw and a no-result).

Rows are ordered by points, highest first. A schedule with no rows has no teams; the
source then sorts a data frame with no columns, which fails with a `KeyError` for the
missing `points` column, and the model returns that failure.

Files:

- `wrappers.dfy` — `Option` and `Result`.
- `points_table_simulator.dfy` (module `PointsTableSimulator`) — the data model and the
  column check. It holds the constructor as a function returning `Result`, the counting
  filters, and the specification of a points table (`IsPointsTable`). It also holds the
  calculation itself, as methods: a loop over the team set that appends one row per team,
  then a sort by points.
- `points_table_properties.dfy` (module `PointsTableProperties`) — how the counted columns
  relate to each other and to the schedule, what a whole table adds up to, and the test
  suite's worked examples.

Modelling decisions:

- The simulator is a datatype built once by the constructor. The calculation requires the
  four configured columns to be present, which is what the constructor's check
  establishes (`ConstructedSimulatorHasColumns`). Changes to the schedule after
  construction are not modelled (see "Left out").
- The pandas DataFrame becomes a `Frame`: the set of its column labels plus the rows as
  match records. The configured column names are only checked for presence, as the
  constructor does. They are not used to look cells up.
- Counts are modelled as the code computes them:
  - `matches_won` counts every row whose winner is the team, whether or not the team
    played in it;
  - `matches_lost` counts every decided row involving the team whose winner is not the
    team, so draws and no-results are counted as losses too;
  - a missing winner cell and the empty string both mean "not yet played".
- The loop visits the team set in an unspecified order (`var team :| team in todo`), as
  iterating a Python set does. The sort is an insertion sort by points, highest first.
  Its order among tied rows is its own choice. The model promises only what pandas'
  unstable sort promises too: non-increasing points, and the same rows.

A reader of the column list (points_table_simulator.py:100-109) might expect
`matches_played = matches_won + matches_lost + matches_drawn + matches_with_no_result`.
The code (lines 133-148) counts a draw both as drawn and as lost, so that sum does not
hold (`DrawCountsAsLoss`). The model follows the code. What does hold is proved instead,
when winners are well formed: played = won + lost, and drawn + no result ≤ lost
(`PlayedIsWonPlusLost`).

## Model

| member | source | states |
|---|---|---|
| PointsTableSimulator.ValidateScheduleColumns | src/points_table_simulator/points_table_simulator.py:226-253 | no error exactly when all four configured names are columns; otherwise the error names a configured column that is missing, and every column checked before it is present (away, home, match number, winner order) |
| PointsTableSimulator.New | src/points_table_simulator/points_table_simulator.py:47-93 | construction succeeds exactly when all four configured columns exist; on success, the schedule, the three point values and the column names are kept as given (defaults 1, 1 and away/home/match_number/winner); on failure, the error is the column check's error |
| PointsTableSimulator.ConstructedSimulatorHasColumns | src/points_table_simulator/points_table_simulator.py:47-93 | every simulator the constructor returns has all four configured columns, the precondition of the calculation |
| PointsTableSimulator.Count | src/points_table_simulator/points_table_simulator.py:119-164 | the number of rows a filter selects is at most the number of schedule rows |
| PointsTableSimulator.CountIsZero | src/points_table_simulator/points_table_simulator.py:119-164 | a filter's count is zero exactly when no schedule row passes the filter |
| PointsTableSimulator.CountPartition | src/points_table_simulator/points_table_simulator.py:119-164 | when two disjoint filters together select what a third selects, their counts add up to its count |
| PointsTableSimulator.TeamsAreAwayAndHome | src/points_table_simulator/points_table_simulator.py:114-116 | the teams of the table are exactly the union of the away column's names and the home column's names |
| PointsTableSimulator.NoTeamsNoMatches | src/points_table_simulator/points_table_simulator.py:114-116 | the team set is empty exactly when the schedule has no rows |
| PointsTableSimulator.TeamRow | src/points_table_simulator/points_table_simulator.py:119-167 | a team's row names that team, and its played and remaining counts split the team's fixtures between them; its partner lemmas are `PlayedIsWonPlusLost` (played = won + lost under well-formed winners), `DrawCountsAsLoss` and `TeamNamedDrawBreaksPartition` |
| PointsTableSimulator.SortByPoints | src/points_table_simulator/points_table_simulator.py:180-182 | the result is ordered by points, highest first, and is a permutation of the rows built in the loop |
| PointsTableSimulator.InsertByPointsKeepsRows | src/points_table_simulator/points_table_simulator.py:181 | inserting a row into the sorted prefix adds exactly that row |
| PointsTableSimulator.InsertByPointsKeepsOrder | src/points_table_simulator/points_table_simulator.py:181 | inserting a row into a list ordered by points keeps it ordered |
| PointsTableSimulator.PermutationKeepsTable | src/points_table_simulator/points_table_simulator.py:180-182 | reordering the rows keeps the team coverage and every row's counts and points; only the order changes |
| PointsTableSimulator.AppendTeamRow | src/points_table_simulator/points_table_simulator.py:169-178 | appending a team's row keeps the rows built so far one-to-one with the teams done |
| PointsTableSimulator.TeamPointsData | src/points_table_simulator/points_table_simulator.py:112-178 | after the loop over the team set there is one row per team of the home and away columns and no other row, and each row holds its team's counts |
| PointsTableSimulator.CurrentPointsTable | src/points_table_simulator/points_table_simulator.py:96-184 | fails with the missing `points` sort key exactly when the schedule has no rows; otherwise the table has exactly one row per team and as many rows as teams, every row holds its team's counts, points = won·win + drawn·draw + no result·no-result, and rows are ordered by points, highest first |
| PointsTableProperties.CountMonotonic | src/points_table_simulator/points_table_simulator.py:119-164 | a filter that selects fewer rows has a count no larger |
| PointsTableProperties.CountExtensional | src/points_table_simulator/points_table_simulator.py:119-164 | filters that agree on every row have the same count |
| PointsTableProperties.PlayedIsWonPlusLost | src/points_table_simulator/points_table_simulator.py:129-154 | when every decided winner is the home team, the away team, "Draw" or "No Result", and the team's name is not a sentinel: played = won + lost, and drawn + no result ≤ lost |
| PointsTableProperties.OneRowPerTeam | src/points_table_simulator/points_table_simulator.py:114-118 | rows for exactly the given teams, as many as there are teams, name each team exactly once |
| PointsTableProperties.TableTeams | src/points_table_simulator/points_table_simulator.py:114-118 | the teams of a points table are exactly the home and away teams of the schedule, with no repeats |
| PointsTableProperties.TableHasOneRowPerTeam | src/points_table_simulator/points_table_simulator.py:114-118 | no two rows of a points table belong to the same team |
| PointsTableProperties.TablePlayedPlusRemaining | src/points_table_simulator/points_table_simulator.py:119-127 | in every row of a points table, played + remaining is the team's number of fixtures |
| PointsTableProperties.MatchTeamsAreTeams | src/points_table_simulator/points_table_simulator.py:114-116 | the home team and the away team of every schedule row are teams of the table |
| PointsTableProperties.SumWonOfDistinctRows | src/points_table_simulator/points_table_simulator.py:129-131 | for rows with distinct teams, each holding its team's win count, the wins add up to the rows whose winner is one of those teams |
| PointsTableProperties.TotalWins | src/points_table_simulator/points_table_simulator.py:129-131 | summed over a points table, the wins equal the number of schedule rows whose winner is a team of the table |
| PointsTableProperties.TotalWinsCountsSoleWinners | src/points_table_simulator/points_table_simulator.py:129-154 | with well-formed winners and no team named like a sentinel, the wins add up to the decided matches that have a sole winner |
| PointsTableProperties.PermutedPointsColumn | src/points_table_simulator/points_table_simulator.py:180-182 | reordering the rows reorders the points column: the same points values, as a multiset |
| PointsTableProperties.PointsTablesAgreeUpToOrder | src/points_table_simulator/points_table_simulator.py:112-184 | any two points tables of the same simulator hold the same rows and the same points column, position by position; they can differ only in the order of rows with equal points |
| PointsTableProperties.FixtureConstructs | tests/points_table_simulator_tests/SuccessTests.py:8-33 | the test fixture constructs: win 3, no result 1, draw 1 and the default column names |
| PointsTableProperties.MissingMatchNumberColumnIsRefused | tests/points_table_simulator_tests/SuccessTests.py:49-59 | a schedule without a match_number column is refused, naming that column |
| PointsTableProperties.FixtureTeamRows | tests/points_table_simulator_tests/SuccessTests.py:8-23 | the fixture's teams are Team A, Team B and Team C: A played 1, won 1, remaining 1, 3 points; B played 2, lost 2, 0 points; C played 1, won 1, remaining 1, 3 points |
| PointsTableProperties.FixtureTable | src/points_table_simulator/points_table_simulator.py:112-184 | every points table of the fixture is [A, C, B] or [C, A, B], the two 3-point teams in either order and then B with 0 |
| PointsTableProperties.DrawCountsAsLoss | src/points_table_simulator/points_table_simulator.py:133-148 | a single drawn match counts as played, lost and drawn for a team, so played is less than won + lost + drawn + no result |
| PointsTableProperties.TeamNamedDrawBreaksPartition | src/points_table_simulator/points_table_simulator.py:129-142 | a team named "Draw" is credited with another pair's drawn match as a win, so played = won + lost fails without the sentinel-name hypothesis |

## Left out

- The qualification-scenario enumerator (`simulate_the_qualification_scenarios`) and its
  exceptions: the tests call it, but the source files do not implement it.
- `_validate_input_types` (points_table_simulator.py:186-224): Python `isinstance` checks. Dafny's static
  types make them vacuous, so construction has no `TypeError` path.
- pandas itself: DataFrame filtering, `unique`, `sort_values`, `reset_index`, and cell
  lookup by configured column name. The schedule is a fixed record sequence. Column names
  are checked for presence only, and cells of columns outside the four are not represented.
- Missing or non-string team names in the home and away columns: team names are strings
  here. A `NaN` team would become a team of its own under Python's set.
- The order of teams tied on points. `PointsTablesAgreeUpToOrder` bounds it: any two
  results hold the same rows and the same points column.
- TeamPointsData and CurrentPointsTable: in the source the simulator's attributes are
  public and the DataFrame is held by reference (lines 85-92), so a schedule changed after
  construction reaches the calculation unchecked and a missing column raises `KeyError`
  there. The model's simulator is an immutable value, and the calculation requires the
  configured columns instead; aliasing and later updates are not captured.
- CurrentPointsTable: the table is a sequence of rows, not a DataFrame with a fresh 0..n-1
  index; the index reset at line 182 has nothing to model.
- The message texts of the `ValueError`s. The error value carries the column's role and
  name instead.
- src/points_table_simulator/exceptions.py: message-only exception classes, with no
  behaviour.
- src/points_table_simulator/__init__.py: it re-exports the exceptions and the class, but
  lines 1-7 import `InvalidColumnNamesError` and `TeamNotFoundError`, which exceptions.py
  does not define, so importing the package as written raises `ImportError`. Package
  loading is not modelled.
