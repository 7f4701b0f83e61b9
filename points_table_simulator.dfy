/**
  The points-table simulator: a tournament schedule, the scoring rule, the check
  that the configured columns exist, and the calculation of the current points table.

  The schedule is kept as a sequence of match records; the column names are only
  checked for presence, as the constructor does, and are not used to look cells up.
*/
module PointsTableSimulator {
  import opened Wrappers

  type Team = string

  /** The sentinel winners the table recognises. */
  const Draw: string := "Draw"
  const NoResult: string := "No Result"

  /** One schedule row. `winner` is None when the cell is missing; a missing cell and
      the empty string both mean that the match has not been played yet. */
  datatype Match = Match(matchNumber: int, home: Team, away: Team, winner: Option<string>)

  type Schedule = seq<Match>

  /** The schedule as handed to the constructor: its column labels and its rows. */
  datatype Frame = Frame(columns: set<string>, matches: Schedule)

  /** The four configurable column names. */
  datatype ColumnNames = ColumnNames(away: string, home: string, matchNumber: string, winner: string)

  const DefaultColumnNames: ColumnNames := ColumnNames("away", "home", "match_number", "winner")

  /** Which configured column a name stands for, in the order the constructor checks them. */
  datatype ColumnRole = AwayTeamColumn | HomeTeamColumn | MatchNumberColumn | WinningTeamColumn

  /** The ValueError the constructor raises: the offending role and the name that was not found. */
  datatype Error = ColumnNotFound(role: ColumnRole, name: string)

  /** The KeyError the calculation raises when the table it sorts has no `points`
      column: with no teams, the data frame built from no rows has no columns at all. */
  datatype TableError = SortKeyNotFound(key: string)

  /** A constructed simulator: the schedule, the scoring rule and the column names. */
  datatype Simulator = Simulator(
    tournamentSchedule: Frame,
    pointsForAWin: int,
    pointsForANoResult: int,
    pointsForADraw: int,
    columnNames: ColumnNames)

  /** One row of the points table. */
  datatype Row = Row(
    team: Team,
    matchesPlayed: nat,
    matchesWon: nat,
    matchesLost: nat,
    matchesDrawn: nat,
    matchesWithNoResult: nat,
    remainingMatches: nat,
    points: int)

  // ---------------------------------------------------------------------------
  // Column validation and construction
  // ---------------------------------------------------------------------------

  function CheckOrder(role: ColumnRole): nat {
    match role
    case AwayTeamColumn => 0
    case HomeTeamColumn => 1
    case MatchNumberColumn => 2
    case WinningTeamColumn => 3
  }

  function NameOf(names: ColumnNames, role: ColumnRole): string {
    match role
    case AwayTeamColumn => names.away
    case HomeTeamColumn => names.home
    case MatchNumberColumn => names.matchNumber
    case WinningTeamColumn => names.winner
  }

  predicate AllColumnsPresent(columns: set<string>, names: ColumnNames) {
    && names.away in columns
    && names.home in columns
    && names.matchNumber in columns
    && names.winner in columns
  }

  /** The constructor's column check: None when every configured name is a column,
      otherwise the first configured name, in check order, that is not. */
  function ValidateScheduleColumns(columns: set<string>, names: ColumnNames): (r: Option<Error>)
    ensures r.None? <==> AllColumnsPresent(columns, names)
    ensures r.Some? ==> r.value.name == NameOf(names, r.value.role) && r.value.name !in columns
    ensures r.Some? ==> forall role :: CheckOrder(role) < CheckOrder(r.value.role) ==> NameOf(names, role) in columns
  {
    if names.away !in columns then Some(ColumnNotFound(AwayTeamColumn, names.away))
    else if names.home !in columns then Some(ColumnNotFound(HomeTeamColumn, names.home))
    else if names.matchNumber !in columns then Some(ColumnNotFound(MatchNumberColumn, names.matchNumber))
    else if names.winner !in columns then Some(ColumnNotFound(WinningTeamColumn, names.winner))
    else
      None
  }

  /** The constructor: it succeeds exactly when all four configured columns exist,
      and then keeps the schedule and the scoring rule as given. */
  function New(
    tournamentSchedule: Frame,
    pointsForAWin: int,
    pointsForANoResult: int := 1,
    pointsForADraw: int := 1,
    columnNames: ColumnNames := DefaultColumnNames): (r: Result<Simulator, Error>)
    ensures r.Success? <==> AllColumnsPresent(tournamentSchedule.columns, columnNames)
    ensures r.Success? ==>
      && r.value.tournamentSchedule == tournamentSchedule
      && r.value.pointsForAWin == pointsForAWin
      && r.value.pointsForANoResult == pointsForANoResult
      && r.value.pointsForADraw == pointsForADraw
      && r.value.columnNames == columnNames
    ensures r.Failure? ==> ValidateScheduleColumns(tournamentSchedule.columns, columnNames) == Some(r.error)
  {
    match ValidateScheduleColumns(tournamentSchedule.columns, columnNames)
    case None => Success(Simulator(tournamentSchedule, pointsForAWin, pointsForANoResult, pointsForADraw, columnNames))
    case Some(e) => Failure(e)
  }

  // ---------------------------------------------------------------------------
  // Counting over the schedule
  // ---------------------------------------------------------------------------

  /** The number of schedule rows a filter selects (`len(schedule[filter])`). */
  function Count(s: Schedule, p: Match -> bool): (n: nat)
    ensures n <= |s|
  {
    if s == [] then 0
    else (if p(s[0]) then 1 else 0) + Count(s[1..], p)
  }

  /** Two filters that split a third one between them split its count too. */
  lemma {:induction false} CountPartition(s: Schedule, p: Match -> bool, q: Match -> bool, r: Match -> bool)
    requires forall m :: m in s ==> (p(m) <==> q(m) || r(m))
    requires forall m :: m in s ==> !(q(m) && r(m))
    ensures Count(s, p) == Count(s, q) + Count(s, r)
  {
    if s != [] {
      CountPartition(s[1..], p, q, r);
    }
  }

  /** A filter counts nothing exactly when it selects no row. */
  lemma {:induction false} CountIsZero(s: Schedule, p: Match -> bool)
    ensures Count(s, p) == 0 <==> forall m :: m in s ==> !p(m)
  {
    if s != [] {
      CountIsZero(s[1..], p);
      assert forall m :: m in s[1..] ==> m in s;
      assert s[0] in s;
    }
  }

  predicate Involves(m: Match, team: Team) {
    m.away == team || m.home == team
  }

  /** `winner.fillna("") != ""` */
  predicate IsDecided(m: Match) {
    m.winner.Some? && m.winner.value != ""
  }

  /** The row filters of the table, one per counted column. */
  function InvolvedIn(team: Team): Match -> bool {
    (m: Match) => Involves(m, team)
  }

  function PlayedBy(team: Team): Match -> bool {
    (m: Match) => Involves(m, team) && IsDecided(m)
  }

  /** Every row naming the team as winner, whether or not the team took part. */
  function WonBy(team: Team): Match -> bool {
    (m: Match) => m.winner == Some(team)
  }

  /** Every decided row involving the team whose winner is not the team; draws and
      no-results are among them. */
  function LostBy(team: Team): Match -> bool {
    (m: Match) => Involves(m, team) && m.winner != Some(team) && IsDecided(m)
  }

  function DrawnBy(team: Team): Match -> bool {
    (m: Match) => Involves(m, team) && m.winner == Some(Draw)
  }

  function NoResultFor(team: Team): Match -> bool {
    (m: Match) => Involves(m, team) && m.winner == Some(NoResult)
  }

  function RemainingFor(team: Team): Match -> bool {
    (m: Match) => Involves(m, team) && !IsDecided(m)
  }

  /** The teams of the table: every away team and every home team, row by row. */
  function Teams(s: Schedule): (teams: set<Team>) {
    if s == [] then {} else {s[0].away, s[0].home} + Teams(s[1..])
  }

  /** The teams are the union of the away column's names and the home column's names. */
  lemma {:induction false} TeamsAreAwayAndHome(s: Schedule)
    ensures Teams(s) == (set m | m in s :: m.away) + (set m | m in s :: m.home)
  {
    if s != [] {
      TeamsAreAwayAndHome(s[1..]);
      assert s == [s[0]] + s[1..];
      assert forall m :: m in s <==> m == s[0] || m in s[1..];
    }
  }

  /** The row the table holds for one team: six passes over the schedule, one per
      counted column, and the points of the scoring rule. Every fixture of the team is
      either played or remaining, never both. */
  function TeamRow(sim: Simulator, team: Team): (r: Row)
    ensures r.team == team
    ensures r.matchesPlayed + r.remainingMatches == Count(sim.tournamentSchedule.matches, InvolvedIn(team))
  {
    var s := sim.tournamentSchedule.matches;
    CountPartition(s, InvolvedIn(team), PlayedBy(team), RemainingFor(team));
    var won := Count(s, WonBy(team));
    var drawn := Count(s, DrawnBy(team));
    var noResult := Count(s, NoResultFor(team));
    Row(team,
        Count(s, PlayedBy(team)),
        won,
        Count(s, LostBy(team)),
        drawn,
        noResult,
        Count(s, RemainingFor(team)),
        won * sim.pointsForAWin + drawn * sim.pointsForADraw + noResult * sim.pointsForANoResult)
  }

  // ---------------------------------------------------------------------------
  // What a points table is
  // ---------------------------------------------------------------------------

  /** Every row belongs to one of the given teams. */
  ghost predicate RowTeamsIn(table: seq<Row>, teams: set<Team>) {
    forall r :: r in table ==> r.team in teams
  }

  /** Every one of the given teams has a row. */
  ghost predicate HasRowFor(table: seq<Row>, teams: set<Team>) {
    forall t :: t in teams ==> exists r :: r in table && r.team == t
  }

  /** Every row holds its team's counts and points. */
  ghost predicate RowsHoldCounts(sim: Simulator, table: seq<Row>) {
    forall r :: r in table ==> r == TeamRow(sim, r.team)
  }

  /** Every row's points follow the scoring rule. */
  ghost predicate PointsAreScored(sim: Simulator, table: seq<Row>) {
    forall r :: r in table ==>
      r.points == r.matchesWon * sim.pointsForAWin + r.matchesDrawn * sim.pointsForADraw
                  + r.matchesWithNoResult * sim.pointsForANoResult
  }

  /** Rows are ordered by points, highest first. */
  predicate SortedByPoints(table: seq<Row>) {
    forall i, j :: 0 <= i < j < |table| ==> table[i].points >= table[j].points
  }

  /** A points table: one row per team of the schedule, holding that team's counts,
      highest points first. */
  ghost predicate IsPointsTable(sim: Simulator, table: seq<Row>) {
    var teams := Teams(sim.tournamentSchedule.matches);
    && RowTeamsIn(table, teams)
    && HasRowFor(table, teams)
    && |table| == |teams|
    && RowsHoldCounts(sim, table)
    && PointsAreScored(sim, table)
    && SortedByPoints(table)
  }

  // ---------------------------------------------------------------------------
  // Sorting by points
  // ---------------------------------------------------------------------------

  function InsertByPoints(row: Row, sorted: seq<Row>): (r: seq<Row>) {
    if sorted == [] || row.points >= sorted[0].points then [row] + sorted
    else [sorted[0]] + InsertByPoints(row, sorted[1..])
  }

  lemma {:induction false} InsertByPointsKeepsRows(row: Row, sorted: seq<Row>)
    ensures multiset(InsertByPoints(row, sorted)) == multiset(sorted) + multiset{row}
  {
    if sorted != [] && row.points < sorted[0].points {
      InsertByPointsKeepsRows(row, sorted[1..]);
      assert sorted == [sorted[0]] + sorted[1..];
    }
  }

  lemma {:induction false} InsertByPointsKeepsOrder(row: Row, sorted: seq<Row>)
    requires SortedByPoints(sorted)
    ensures SortedByPoints(InsertByPoints(row, sorted))
  {
    if sorted != [] && row.points < sorted[0].points {
      var rest := InsertByPoints(row, sorted[1..]);
      InsertByPointsKeepsOrder(row, sorted[1..]);
      InsertByPointsKeepsRows(row, sorted[1..]);
      forall k | 0 <= k < |rest| ensures sorted[0].points >= rest[k].points {
        assert rest[k] in multiset(rest);
        if rest[k] != row {
          assert rest[k] in multiset(sorted[1..]);
          assert rest[k] in sorted[1..];
        }
      }
    }
  }

  /** `sort_values(by="points", ascending=False)`: highest points first, same rows.
      The order among rows with equal points is this sort's own choice. */
  function SortByPoints(rows: seq<Row>): (r: seq<Row>)
    ensures SortedByPoints(r)
    ensures multiset(r) == multiset(rows)
  {
    if rows == [] then []
    else
      var rest := SortByPoints(rows[1..]);
      InsertByPointsKeepsRows(rows[0], rest);
      InsertByPointsKeepsOrder(rows[0], rest);
      assert rows == [rows[0]] + rows[1..];
      InsertByPoints(rows[0], rest)
  }

  // ---------------------------------------------------------------------------
  // The points table
  // ---------------------------------------------------------------------------

  /** Reordering the rows of a table keeps every property but the order. */
  lemma PermutationKeepsTable(sim: Simulator, teams: set<Team>, rows: seq<Row>, table: seq<Row>)
    requires multiset(table) == multiset(rows)
    requires RowTeamsIn(rows, teams) && HasRowFor(rows, teams) && RowsHoldCounts(sim, rows)
    ensures RowTeamsIn(table, teams) && HasRowFor(table, teams) && RowsHoldCounts(sim, table)
    ensures PointsAreScored(sim, table)
    ensures |table| == |rows|
  {
    forall r ensures r in table <==> r in rows {
      assert r in table <==> r in multiset(table);
      assert r in rows <==> r in multiset(rows);
    }
    assert |table| == |multiset(table)| == |multiset(rows)| == |rows|;
  }

  /** One more team's row keeps the rows built so far in step with the teams done. */
  lemma AppendTeamRow(sim: Simulator, rows: seq<Row>, done: set<Team>, row: Row)
    requires RowTeamsIn(rows, done) && HasRowFor(rows, done) && RowsHoldCounts(sim, rows)
    requires row == TeamRow(sim, row.team)
    ensures RowTeamsIn(rows + [row], done + {row.team})
    ensures HasRowFor(rows + [row], done + {row.team})
    ensures RowsHoldCounts(sim, rows + [row])
  {
    assert row in rows + [row];
    forall t | t in done ensures exists r :: r in rows + [row] && r.team == t {
      var r :| r in rows && r.team == t;
      assert r in rows + [row];
    }
  }

  /** Taking one element out of the part still to do moves it to the part done. */
  lemma TakeOne<T>(all: set<T>, todo: set<T>, x: T)
    requires todo <= all && x in todo
    ensures (all - todo) + {x} == all - (todo - {x})
    ensures |todo - {x}| == |todo| - 1
  {
  }

  /** The loop of `current_points_table`: one row per team, built over the team set
      in whatever order the set yields. */
  method TeamPointsData(sim: Simulator) returns (teamPointsData: seq<Row>)
    requires AllColumnsPresent(sim.tournamentSchedule.columns, sim.columnNames)
    ensures RowTeamsIn(teamPointsData, Teams(sim.tournamentSchedule.matches))
    ensures HasRowFor(teamPointsData, Teams(sim.tournamentSchedule.matches))
    ensures |teamPointsData| == |Teams(sim.tournamentSchedule.matches)|
    ensures RowsHoldCounts(sim, teamPointsData)
  {
    var schedule := sim.tournamentSchedule.matches;
    var teams := (set m | m in schedule :: m.away) + (set m | m in schedule :: m.home);
    TeamsAreAwayAndHome(schedule);
    teamPointsData := [];
    var todo := teams;
    while todo != {}
      invariant todo <= teams
      invariant |teamPointsData| + |todo| == |teams|
      invariant RowTeamsIn(teamPointsData, teams - todo)
      invariant HasRowFor(teamPointsData, teams - todo)
      invariant RowsHoldCounts(sim, teamPointsData)
      decreases |todo|
    {
      var team :| team in todo;
      var row := TeamRow(sim, team);
      AppendTeamRow(sim, teamPointsData, teams - todo, row);
      TakeOne(teams, todo, team);
      teamPointsData := teamPointsData + [row];
      todo := todo - {team};
    }
    assert teams - todo == Teams(schedule);
  }

  /** `current_points_table`: the rows of every team, ordered by points, highest first.
      A schedule without rows has no teams, and sorting the column-less frame built
      from no rows fails because it has no `points` column. */
  method CurrentPointsTable(sim: Simulator) returns (r: Result<seq<Row>, TableError>)
    requires AllColumnsPresent(sim.tournamentSchedule.columns, sim.columnNames)
    ensures r.Failure? <==> sim.tournamentSchedule.matches == []
    ensures r.Failure? ==> r.error == SortKeyNotFound("points")
    ensures r.Success? ==> IsPointsTable(sim, r.value)
  {
    var teamPointsData := TeamPointsData(sim);
    if teamPointsData == [] {
      NoTeamsNoMatches(sim.tournamentSchedule.matches);
      return Failure(SortKeyNotFound("points"));
    }
    var table := SortByPoints(teamPointsData);
    PermutationKeepsTable(sim, Teams(sim.tournamentSchedule.matches), teamPointsData, table);
    return Success(table);
  }

  /** A schedule has no teams exactly when it has no rows. */
  lemma NoTeamsNoMatches(s: Schedule)
    ensures Teams(s) == {} <==> s == []
  {
    if s != [] {
      assert s[0].away in Teams(s);
    }
  }

  /** A simulator the constructor returns meets the calculation's precondition. */
  lemma ConstructedSimulatorHasColumns(
    tournamentSchedule: Frame, pointsForAWin: int, pointsForANoResult: int, pointsForADraw: int,
    columnNames: ColumnNames)
    requires New(tournamentSchedule, pointsForAWin, pointsForANoResult, pointsForADraw, columnNames).Success?
    ensures var sim := New(tournamentSchedule, pointsForAWin, pointsForANoResult, pointsForADraw, columnNames).value;
            AllColumnsPresent(sim.tournamentSchedule.columns, sim.columnNames)
  {
  }
}
