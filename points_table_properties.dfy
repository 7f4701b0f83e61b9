/**
  Properties of the points table: how the counted columns relate to each other and
  to the schedule, what a whole table adds up to, and the worked examples of the
  test suite.
*/
module PointsTableProperties {
  import opened Wrappers
  import opened PointsTableSimulator

  // ---------------------------------------------------------------------------
  // Counting
  // ---------------------------------------------------------------------------

  /** A filter that selects fewer rows counts fewer rows. */
  lemma {:induction false} CountMonotonic(s: Schedule, p: Match -> bool, q: Match -> bool)
    requires forall m :: m in s ==> p(m) ==> q(m)
    ensures Count(s, p) <= Count(s, q)
  {
    if s != [] {
      CountMonotonic(s[1..], p, q);
    }
  }

  lemma CountExtensional(s: Schedule, p: Match -> bool, q: Match -> bool)
    requires forall m :: m in s ==> (p(m) <==> q(m))
    ensures Count(s, p) == Count(s, q)
  {
    CountMonotonic(s, p, q);
    CountMonotonic(s, q, p);
  }

  // ---------------------------------------------------------------------------
  // One team's row
  // ---------------------------------------------------------------------------

  /** Every decided winner is one of the two teams or a sentinel. */
  ghost predicate WinnersAreWellFormed(s: Schedule) {
    forall m :: m in s && IsDecided(m) ==> m.winner.value in {m.home, m.away, Draw, NoResult}
  }

  /** A name the winner column gives a meaning of its own: pending, draw, no result. */
  predicate IsSentinel(name: string) {
    name == "" || name == Draw || name == NoResult
  }

  function TiedFor(team: Team): Match -> bool {
    (m: Match) => Involves(m, team) && (m.winner == Some(Draw) || m.winner == Some(NoResult))
  }

  /** With well-formed winners, every played match is won or lost, and draws and
      no-results are among the losses. */
  lemma PlayedIsWonPlusLost(sim: Simulator, team: Team)
    requires WinnersAreWellFormed(sim.tournamentSchedule.matches)
    requires !IsSentinel(team)
    ensures TeamRow(sim, team).matchesPlayed == TeamRow(sim, team).matchesWon + TeamRow(sim, team).matchesLost
    ensures TeamRow(sim, team).matchesDrawn + TeamRow(sim, team).matchesWithNoResult <= TeamRow(sim, team).matchesLost
  {
    var s := sim.tournamentSchedule.matches;
    forall m | m in s ensures PlayedBy(team)(m) <==> WonBy(team)(m) || LostBy(team)(m) {
      if WonBy(team)(m) {
        assert IsDecided(m);
        assert m.winner.value in {m.home, m.away, Draw, NoResult};
      }
    }
    CountPartition(s, PlayedBy(team), WonBy(team), LostBy(team));
    CountPartition(s, TiedFor(team), DrawnBy(team), NoResultFor(team));
    CountMonotonic(s, TiedFor(team), LostBy(team));
  }

  // ---------------------------------------------------------------------------
  // Whole tables
  // ---------------------------------------------------------------------------

  function TeamsOf(rows: seq<Row>): (teams: set<Team>) {
    set r | r in rows :: r.team
  }

  predicate TeamsDistinct(rows: seq<Row>) {
    forall i, j :: 0 <= i < j < |rows| ==> rows[i].team != rows[j].team
  }

  lemma TeamsOfCons(rows: seq<Row>)
    requires rows != []
    ensures TeamsOf(rows) == {rows[0].team} + TeamsOf(rows[1..])
  {
    assert rows == [rows[0]] + rows[1..];
  }

  /** There are never more teams than rows, and as many only when no team repeats. */
  lemma {:induction false} TeamsOfSize(rows: seq<Row>)
    ensures |TeamsOf(rows)| <= |rows|
    ensures |TeamsOf(rows)| == |rows| ==> TeamsDistinct(rows)
  {
    if rows != [] {
      var rest := rows[1..];
      TeamsOfCons(rows);
      TeamsOfSize(rest);
      if rows[0].team !in TeamsOf(rest) && |TeamsOf(rows)| == |rows| {
        forall i, j | 0 <= i < j < |rows| ensures rows[i].team != rows[j].team {
          if i == 0 {
            assert rows[j] in rest;
          } else {
            assert rows[i] == rest[i - 1] && rows[j] == rest[j - 1];
          }
        }
      }
    }
  }

  /** Rows for exactly the given teams, as many as there are teams: one row per team. */
  lemma OneRowPerTeam(table: seq<Row>, teams: set<Team>)
    requires RowTeamsIn(table, teams) && HasRowFor(table, teams) && |table| == |teams|
    ensures TeamsOf(table) == teams
    ensures TeamsDistinct(table)
  {
    TeamsOfSize(table);
  }

  lemma TableTeams(sim: Simulator, table: seq<Row>)
    requires IsPointsTable(sim, table)
    ensures TeamsOf(table) == Teams(sim.tournamentSchedule.matches)
    ensures TeamsDistinct(table)
  {
    OneRowPerTeam(table, Teams(sim.tournamentSchedule.matches));
  }

  /** No team has two rows. */
  lemma TableHasOneRowPerTeam(sim: Simulator, table: seq<Row>)
    requires IsPointsTable(sim, table)
    ensures forall i, j :: 0 <= i < j < |table| ==> table[i].team != table[j].team
  {
    TableTeams(sim, table);
  }

  /** Played plus remaining is each team's number of fixtures, in every row. */
  lemma TablePlayedPlusRemaining(sim: Simulator, table: seq<Row>)
    requires IsPointsTable(sim, table)
    ensures forall r :: r in table ==>
      r.matchesPlayed + r.remainingMatches == Count(sim.tournamentSchedule.matches, InvolvedIn(r.team))
  {
  }

  function SumWon(rows: seq<Row>): (n: nat) {
    if rows == [] then 0 else rows[0].matchesWon + SumWon(rows[1..])
  }

  /** Rows whose winner is one of the given teams. */
  function WinnerIn(teams: set<Team>): Match -> bool {
    (m: Match) => m.winner.Some? && m.winner.value in teams
  }

  lemma {:induction false} SumWonOfDistinctRows(s: Schedule, rows: seq<Row>, teams: set<Team>)
    requires forall r :: r in rows ==> r.matchesWon == Count(s, WonBy(r.team))
    requires TeamsDistinct(rows)
    requires TeamsOf(rows) == teams
    ensures SumWon(rows) == Count(s, WinnerIn(teams))
  {
    if rows == [] {
      assert forall m :: m in s ==> !WinnerIn(teams)(m);
      CountIsZero(s, WinnerIn(teams));
    } else {
      var t, rest := rows[0].team, rows[1..];
      TeamsOfCons(rows);
      assert t !in TeamsOf(rest) by {
        forall r | r in rest ensures r.team != t {
          var k :| 0 <= k < |rest| && rest[k] == r;
          assert rows[k + 1] == r;
        }
      }
      assert TeamsDistinct(rest) by {
        forall i, j | 0 <= i < j < |rest| ensures rest[i].team != rest[j].team {
          assert rows[i + 1] == rest[i] && rows[j + 1] == rest[j];
        }
      }
      SumWonOfDistinctRows(s, rest, teams - {t});
      assert rows[0] in rows;
      CountPartition(s, WinnerIn(teams), WonBy(t), WinnerIn(teams - {t}));
    }
  }

  /** Summed over the table, the wins are the rows whose winner is a team of the table. */
  lemma TotalWins(sim: Simulator, table: seq<Row>)
    requires IsPointsTable(sim, table)
    ensures SumWon(table) == Count(sim.tournamentSchedule.matches, WinnerIn(Teams(sim.tournamentSchedule.matches)))
  {
    TableTeams(sim, table);
    SumWonOfDistinctRows(sim.tournamentSchedule.matches, table, Teams(sim.tournamentSchedule.matches));
  }

  /** Both sides of every match are teams of the table. */
  lemma {:induction false} MatchTeamsAreTeams(s: Schedule, m: Match)
    requires m in s
    ensures m.away in Teams(s) && m.home in Teams(s)
  {
    if s[0] != m {
      MatchTeamsAreTeams(s[1..], m);
    }
  }

  predicate HasSoleWinner(m: Match) {
    IsDecided(m) && m.winner.value != Draw && m.winner.value != NoResult
  }

  /** With well-formed winners and no team named like a sentinel, the wins add up to
      the decided matches that have a sole winner. */
  lemma TotalWinsCountsSoleWinners(sim: Simulator, table: seq<Row>)
    requires IsPointsTable(sim, table)
    requires WinnersAreWellFormed(sim.tournamentSchedule.matches)
    requires forall t :: t in Teams(sim.tournamentSchedule.matches) ==> !IsSentinel(t)
    ensures SumWon(table) == Count(sim.tournamentSchedule.matches, HasSoleWinner)
  {
    var s := sim.tournamentSchedule.matches;
    TotalWins(sim, table);
    forall m | m in s ensures WinnerIn(Teams(s))(m) <==> HasSoleWinner(m) {
      MatchTeamsAreTeams(s, m);
      if HasSoleWinner(m) {
        assert m.winner.value in {m.home, m.away, Draw, NoResult};
      }
    }
    CountExtensional(s, WinnerIn(Teams(s)), HasSoleWinner);
  }

  lemma {:induction false} DistinctMultiplicity(rows: seq<Row>, x: Row)
    requires TeamsDistinct(rows)
    ensures multiset(rows)[x] == if x in rows then 1 else 0
  {
    if rows != [] {
      var rest := rows[1..];
      assert rows == [rows[0]] + rest;
      assert TeamsDistinct(rest) by {
        forall i, j | 0 <= i < j < |rest| ensures rest[i].team != rest[j].team {
          assert rows[i + 1] == rest[i] && rows[j + 1] == rest[j];
        }
      }
      DistinctMultiplicity(rest, x);
      if x == rows[0] {
        forall k | 0 <= k < |rest| ensures rest[k] != x {
          assert rows[k + 1] == rest[k];
        }
      }
    }
  }

  /** The points column of a table, top to bottom. */
  function PointsColumn(rows: seq<Row>): (ps: seq<int>)
    ensures |ps| == |rows|
  {
    if rows == [] then [] else [rows[0].points] + PointsColumn(rows[1..])
  }

  /** Row by row, the points column holds each row's points. */
  lemma {:induction false} PointsColumnAt(rows: seq<Row>)
    ensures forall i :: 0 <= i < |rows| ==> PointsColumn(rows)[i] == rows[i].points
  {
    if rows != [] {
      PointsColumnAt(rows[1..]);
    }
  }

  lemma {:induction false} PointsColumnOfConcat(a: seq<Row>, b: seq<Row>)
    ensures PointsColumn(a + b) == PointsColumn(a) + PointsColumn(b)
  {
    if a != [] {
      assert (a + b)[1..] == a[1..] + b;
      PointsColumnOfConcat(a[1..], b);
    } else {
      assert a + b == b;
    }
  }

  lemma SplitAt<T>(b: seq<T>, k: nat)
    requires k < |b|
    ensures b == b[..k] + [b[k]] + b[k + 1..]
    ensures multiset(b[..k] + b[k + 1..]) == multiset(b) - multiset{b[k]}
  {
    assert b == b[..k] + [b[k]] + b[k + 1..];
  }

  /** Taking one row out of a table takes its points out of the points column. */
  lemma PointsColumnRemoveAt(b: seq<Row>, k: nat)
    requires k < |b|
    ensures multiset(PointsColumn(b))
            == multiset(PointsColumn(b[..k] + b[k + 1..])) + multiset{b[k].points}
  {
    var left, x, right := b[..k], b[k], b[k + 1..];
    SplitAt(b, k);
    PointsColumnOfConcat(left + [x], right);
    PointsColumnOfConcat(left, [x]);
    PointsColumnOfConcat(left, right);
    assert PointsColumn([x]) == [x.points];
    calc {
      multiset(PointsColumn(b));
      multiset(PointsColumn(left) + PointsColumn([x]) + PointsColumn(right));
      multiset(PointsColumn(left)) + multiset{x.points} + multiset(PointsColumn(right));
      multiset(PointsColumn(left + right)) + multiset{x.points};
    }
  }

  lemma IndexOf<T>(b: seq<T>, x: T) returns (k: nat)
    requires x in multiset(b)
    ensures k < |b| && b[k] == x
  {
    k :| k < |b| && b[k] == x;
  }

  /** Matching the first row of one table with a row of the other carries a matching
      of the remaining points over to the whole points columns. */
  lemma PointsColumnStep(a: seq<Row>, b: seq<Row>, k: nat)
    requires a != [] && k < |b| && b[k] == a[0]
    requires multiset(PointsColumn(a[1..])) == multiset(PointsColumn(b[..k] + b[k + 1..]))
    ensures multiset(PointsColumn(a)) == multiset(PointsColumn(b))
  {
    PointsColumnRemoveAt(b, k);
    calc {
      multiset(PointsColumn(a));
      { assert PointsColumn(a) == [a[0].points] + PointsColumn(a[1..]); }
      multiset{a[0].points} + multiset(PointsColumn(a[1..]));
      multiset{a[0].points} + multiset(PointsColumn(b[..k] + b[k + 1..]));
      multiset(PointsColumn(b));
    }
  }

  /** Reordering the rows reorders the points column. */
  lemma {:induction false} PermutedPointsColumn(a: seq<Row>, b: seq<Row>)
    requires multiset(a) == multiset(b)
    ensures multiset(PointsColumn(a)) == multiset(PointsColumn(b))
    decreases |a|
  {
    if a == [] {
      assert |b| == |multiset(b)| == 0;
    } else {
      var k := IndexOf(b, a[0]);
      TailElements(a);
      SplitAt(b, k);
      PermutedPointsColumn(a[1..], b[..k] + b[k + 1..]);
      PointsColumnStep(a, b, k);
    }
  }

  predicate NonIncreasing(xs: seq<int>) {
    forall i, j :: 0 <= i < j < |xs| ==> xs[i] >= xs[j]
  }

  /** Two non-increasing sequences with the same elements start with the same, largest, element. */
  lemma SameLargest(xs: seq<int>, ys: seq<int>)
    requires NonIncreasing(xs) && NonIncreasing(ys)
    requires multiset(xs) == multiset(ys)
    requires xs != []
    ensures ys != [] && xs[0] == ys[0]
  {
    assert xs[0] in multiset(ys);
    var j :| 0 <= j < |ys| && ys[j] == xs[0];
    assert ys[0] in multiset(xs);
    var i :| 0 <= i < |xs| && xs[i] == ys[0];
    assert ys[0] >= xs[0] by {
      if j > 0 { assert ys[0] >= ys[j]; }
    }
    assert xs[0] >= ys[0] by {
      if i > 0 { assert xs[0] >= xs[i]; }
    }
  }

  lemma TailElements<T>(xs: seq<T>)
    requires xs != []
    ensures multiset(xs[1..]) == multiset(xs) - multiset{xs[0]}
  {
    assert xs == [xs[0]] + xs[1..];
  }

  /** Two non-increasing sequences with the same elements are the same sequence. */
  lemma {:induction false} NonIncreasingIsUnique(xs: seq<int>, ys: seq<int>)
    requires NonIncreasing(xs) && NonIncreasing(ys)
    requires multiset(xs) == multiset(ys)
    ensures xs == ys
  {
    if xs == [] {
      assert |multiset(ys)| == 0;
    } else {
      SameLargest(xs, ys);
      TailElements(xs);
      TailElements(ys);
      NonIncreasingIsUnique(xs[1..], ys[1..]);
      assert xs == [xs[0]] + xs[1..] && ys == [ys[0]] + ys[1..];
    }
  }

  /** Two points tables of the same simulator hold the same rows and the same points
      column: they differ at most in the order of rows with equal points. */
  lemma PointsTablesAgreeUpToOrder(sim: Simulator, t1: seq<Row>, t2: seq<Row>)
    requires IsPointsTable(sim, t1)
    requires IsPointsTable(sim, t2)
    ensures multiset(t1) == multiset(t2)
    ensures PointsColumn(t1) == PointsColumn(t2)
  {
    TableTeams(sim, t1);
    TableTeams(sim, t2);
    forall x | x in t1 ensures x in t2 {
      var y :| y in t2 && y.team == x.team;
    }
    forall x | x in t2 ensures x in t1 {
      var y :| y in t1 && y.team == x.team;
    }
    forall x ensures multiset(t1)[x] == multiset(t2)[x] {
      DistinctMultiplicity(t1, x);
      DistinctMultiplicity(t2, x);
    }
    PermutedPointsColumn(t1, t2);
    PointsColumnAt(t1);
    PointsColumnAt(t2);
    NonIncreasingIsUnique(PointsColumn(t1), PointsColumn(t2));
  }

  // ---------------------------------------------------------------------------
  // Worked examples
  // ---------------------------------------------------------------------------

  const FixtureColumns: set<string> := {"match_number", "home", "away", "winner"}

  const FixtureSchedule: Schedule := [
    Match(1, "Team A", "Team B", Some("Team A")),
    Match(2, "Team B", "Team C", Some("Team C")),
    Match(3, "Team C", "Team A", None)
  ]

  /** The test builds its simulator with win 3, no result 1, draw 1 and the default columns. */
  lemma FixtureConstructs()
    ensures var r := New(Frame(FixtureColumns, FixtureSchedule), 3, pointsForANoResult := 1, pointsForADraw := 1);
            r.Success? && IsFixtureSimulator(r.value) && r.value.columnNames == DefaultColumnNames
  {
  }

  /** A schedule without a match_number column is refused. */
  lemma MissingMatchNumberColumnIsRefused()
    ensures New(Frame({"home", "away", "winner"}, [Match(1, "Team A", "Team B", Some("Team A"))]), 3)
            == Failure(ColumnNotFound(MatchNumberColumn, "match_number"))
  {
  }

  const RowA: Row := Row("Team A", 1, 1, 0, 0, 0, 1, 3)
  const RowB: Row := Row("Team B", 2, 0, 2, 0, 0, 0, 0)
  const RowC: Row := Row("Team C", 1, 1, 0, 0, 0, 1, 3)

  lemma FixtureTeams(s: Schedule)
    requires s == FixtureSchedule
    ensures Teams(s) == {"Team A", "Team B", "Team C"}
    ensures |Teams(s)| == 3
  {
    assert s[0] in s && s[1] in s && s[2] in s;
    forall t | t in Teams(s) ensures t in {"Team A", "Team B", "Team C"} {
      var m :| m in s && (m.away == t || m.home == t);
    }
  }

  /** A simulator over the fixture schedule with the fixture's scoring rule. */
  ghost predicate IsFixtureSimulator(sim: Simulator) {
    && sim.tournamentSchedule.matches == FixtureSchedule
    && sim.pointsForAWin == 3
    && sim.pointsForANoResult == 1
    && sim.pointsForADraw == 1
  }

  lemma FixtureRowA(sim: Simulator)
    requires IsFixtureSimulator(sim)
    ensures TeamRow(sim, "Team A") == RowA
  {
  }

  lemma FixtureRowB(sim: Simulator)
    requires IsFixtureSimulator(sim)
    ensures TeamRow(sim, "Team B") == RowB
  {
  }

  lemma FixtureRowC(sim: Simulator)
    requires IsFixtureSimulator(sim)
    ensures TeamRow(sim, "Team C") == RowC
  {
  }

  /** Three teams' rows cover every team of a schedule with exactly those teams. */
  lemma RowsOfThreeTeams(sim: Simulator, rows: set<Row>, a: Team, b: Team, c: Team)
    requires Teams(sim.tournamentSchedule.matches) == {a, b, c}
    requires TeamRow(sim, a) in rows && TeamRow(sim, b) in rows && TeamRow(sim, c) in rows
    ensures TeamRowsAmong(sim, rows)
  {
    forall t | t in Teams(sim.tournamentSchedule.matches) ensures TeamRow(sim, t) in rows {
      OneOfThree(t, Teams(sim.tournamentSchedule.matches), a, b, c);
    }
  }

  lemma OneOfThree<T>(x: T, xs: set<T>, a: T, b: T, c: T)
    requires xs == {a, b, c} && x in xs
    ensures x == a || x == b || x == c
  {
  }

  /** The fixture's teams, and the row each of them has. */
  lemma FixtureTeamRows(sim: Simulator)
    requires IsFixtureSimulator(sim)
    ensures Teams(sim.tournamentSchedule.matches) == {"Team A", "Team B", "Team C"}
    ensures |Teams(sim.tournamentSchedule.matches)| == 3
    ensures TeamRowsAmong(sim, {RowA, RowB, RowC})
  {
    FixtureTeams(sim.tournamentSchedule.matches);
    FixtureRowA(sim);
    FixtureRowB(sim);
    FixtureRowC(sim);
    RowsOfThreeTeams(sim, {RowA, RowB, RowC}, "Team A", "Team B", "Team C");
  }

  ghost predicate TeamRowsAmong(sim: Simulator, rows: set<Row>) {
    forall t :: t in Teams(sim.tournamentSchedule.matches) ==> TeamRow(sim, t) in rows
  }

  predicate RowsAmong(table: seq<Row>, rows: set<Row>) {
    forall r :: r in table ==> r in rows
  }

  /** When every team's row is known, so is every row of a points table. */
  lemma KnownPointsTable(sim: Simulator, table: seq<Row>, rows: set<Row>)
    requires IsPointsTable(sim, table)
    requires TeamRowsAmong(sim, rows)
    ensures |table| == |Teams(sim.tournamentSchedule.matches)|
    ensures TeamsDistinct(table)
    ensures SortedByPoints(table)
    ensures RowsAmong(table, rows)
  {
    TableTeams(sim, table);
  }

  /** Three rows drawn from the fixture's rows, one per team, highest points first. */
  lemma OrderOfFixtureRows(table: seq<Row>)
    requires |table| == 3
    requires RowsAmong(table, {RowA, RowB, RowC})
    requires TeamsDistinct(table)
    requires SortedByPoints(table)
    ensures table == [RowA, RowC, RowB] || table == [RowC, RowA, RowB]
  {
    assert table[0] in table && table[1] in table && table[2] in table;
    assert table[2] == RowB;
    assert table == [table[0], table[1], table[2]];
  }

  /** The expected table of the test fixture: A and C on 3 points in either order, then B. */
  lemma FixtureTable(sim: Simulator, table: seq<Row>)
    requires IsFixtureSimulator(sim)
    requires IsPointsTable(sim, table)
    ensures table == [RowA, RowC, RowB] || table == [RowC, RowA, RowB]
  {
    FixtureTeamRows(sim);
    KnownPointsTable(sim, table, {RowA, RowB, RowC});
    OrderOfFixtureRows(table);
  }

  /** A draw is counted as a loss as well as a draw, so played is not the sum of
      won, lost, drawn and no result. */
  lemma DrawCountsAsLoss(win: int, noResult: int, draw: int)
    ensures var sim := Simulator(Frame(FixtureColumns, [Match(1, "Team A", "Team B", Some(Draw))]),
                                 win, noResult, draw, DefaultColumnNames);
            && TeamRow(sim, "Team A") == Row("Team A", 1, 0, 1, 1, 0, 0, draw)
            && TeamRow(sim, "Team A").matchesPlayed
               < TeamRow(sim, "Team A").matchesWon + TeamRow(sim, "Team A").matchesLost
                 + TeamRow(sim, "Team A").matchesDrawn + TeamRow(sim, "Team A").matchesWithNoResult
  {
  }

  /** A team named "Draw" is credited with every drawn match as a win, so played is
      not won plus lost for it; the sentinel hypothesis above cannot be dropped. */
  lemma TeamNamedDrawBreaksPartition()
    ensures var sim := Simulator(Frame(FixtureColumns, [Match(1, Draw, "Team B", Some("Team B")),
                                                        Match(2, "Team C", "Team D", Some(Draw))]),
                                 3, 1, 1, DefaultColumnNames);
            && TeamRow(sim, Draw).matchesPlayed == 1
            && TeamRow(sim, Draw).matchesWon == 1
            && TeamRow(sim, Draw).matchesLost == 1
  {
    var s := [Match(1, Draw, "Team B", Some("Team B")), Match(2, "Team C", "Team D", Some(Draw))];
    assert "Team B" != Draw && "Team C" != Draw && "Team D" != Draw;
    CountOfTwo(s, PlayedBy(Draw));
    CountOfTwo(s, WonBy(Draw));
    CountOfTwo(s, LostBy(Draw));
  }

  lemma CountOfTwo(s: Schedule, p: Match -> bool)
    requires |s| == 2
    ensures Count(s, p) == (if p(s[0]) then 1 else 0) + (if p(s[1]) then 1 else 0)
  {
    assert s[1..][1..] == [];
  }
}
