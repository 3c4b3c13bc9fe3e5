/** The rolling match-history accumulator of service/data_organizer.py
    (`agg_prev_games`): it walks the concatenated season tables in order,
    keeps a per-team history and a per-ordered-pair head-to-head history, and
    for every match emits averages computed from the histories BEFORE it
    appends that match's own result. */
module MatchHistory {
  import opened Common

  type Team = string

  /** The columns of one match row that `agg_prev_games` reads. Goals are
      whole numbers; expected goals are exact reals. */
  datatype MatchRow = MatchRow(home: Team, away: Team, gHome: nat, gAway: nat, xgHome: real, xgAway: real)

  // ---------------------------------------------------------------------------
  // Per-row helpers: `calculate_points` and `calculate_xscore`

  /** Points to (home, away): a win is worth 3, a draw 1, a loss 0. */
  function Points(gHome: nat, gAway: nat): (r: (nat, nat))
    ensures r == (3, 0) <==> gHome > gAway
    ensures r == (0, 3) <==> gHome < gAway
    ensures r == (1, 1) <==> gHome == gAway
  {
    if gHome > gAway then (3, 0)
    else if gHome < gAway then (0, 3)
    else (1, 1)
  }

  /** Exactly one of the three outcomes, the points are symmetric in the two
      sides, and a decisive match hands out 3 points where a draw hands out 2. */
  lemma PointsTotalAndExclusive(gHome: nat, gAway: nat)
    ensures var r := Points(gHome, gAway);
      && (r == (3, 0) || r == (0, 3) || r == (1, 1))
      && Points(gAway, gHome) == (r.1, r.0)
      && r.0 + r.1 == (if gHome == gAway then 2 else 3)
  {
  }

  /** The expected-goals outcome: 1 home, -1 away, 0 level. */
  function XScore(xgHome: real, xgAway: real): (r: int)
    ensures -1 <= r <= 1
    ensures r == 1 <==> xgHome > xgAway
    ensures r == -1 <==> xgHome < xgAway
  {
    if xgHome > xgAway then 1
    else if xgHome < xgAway then -1
    else 0
  }

  // ---------------------------------------------------------------------------
  // Histories and `calculate_avg`

  /** The three parallel lists kept per team and per ordered pair. */
  datatype Series = Series(points: seq<nat>, goalsFor: seq<nat>, goalsAgainst: seq<nat>)
  {
    function Add(p: nat, gf: nat, ga: nat): Series
    {
      Series(points + [p], goalsFor + [gf], goalsAgainst + [ga])
    }

    /** The three lists always have the same length. */
    predicate Balanced()
    {
      |points| == |goalsFor| == |goalsAgainst|
    }
  }

  const EmptySeries := Series([], [], [])

  /** Python's `lst[-n:]`; note that `lst[-0:]` is the whole list. */
  function LastN(lst: seq<nat>, n: nat): (r: seq<nat>)
    ensures |r| == if n == 0 || n >= |lst| then |lst| else n
    ensures r == lst[|lst| - |r|..]
  {
    if n == 0 || n >= |lst| then lst else lst[|lst| - n..]
  }

  /** `calculate_avg(lst, n)`: 0 for an empty list, otherwise the mean of the
      last `n` elements. */
  function CalculateAvg(lst: seq<nat>, n: nat): (r: real)
    ensures r >= 0.0
    ensures lst == [] ==> r == 0.0
  {
    if |lst| == 0 then 0.0
    else
      var w := LastN(lst, n);
      SumNonNegative(w);
      Sum(w) as real / |w| as real
  }

  lemma {:induction false} SumNonNegative(s: seq<nat>)
    ensures Sum(s) >= 0
  {
    if s != [] {
      SumNonNegative(s[..|s| - 1]);
    }
  }

  /** "Points/Match": 0 with no history, otherwise the mean of ALL points. */
  function PointsPerMatch(points: seq<nat>): (r: real)
    ensures r >= 0.0
    ensures points == [] ==> r == 0.0
  {
    if |points| == 0 then 0.0
    else
      SumNonNegative(points);
      Sum(points) as real / |points| as real
  }

  /** A non-empty list whose elements are at most `hi` averages to at most `hi`,
      whatever the window. */
  lemma AvgAtMost(lst: seq<nat>, n: nat, hi: nat)
    requires forall i :: 0 <= i < |lst| ==> lst[i] <= hi
    ensures 0.0 <= CalculateAvg(lst, n) <= hi as real
  {
    if lst != [] {
      var w := LastN(lst, n);
      assert forall i :: 0 <= i < |w| ==> w[i] == lst[|lst| - |w| + i];
      SumBounds(w, 0, hi);
      DivAtMost(Sum(w), |w|, hi);
    }
  }

  lemma DivAtMost(s: int, k: nat, hi: nat)
    requires k > 0 && s <= k * hi
    ensures s as real / k as real <= hi as real
  {
    assert (k * hi) as real == k as real * hi as real;
  }

  /** The empty-history convention is shared, and while a team has at most
      `n` matches (`n` > 0) the windowed average equals "Points/Match". */
  lemma PointsPerMatchAgreesWithAvg(points: seq<nat>, n: nat)
    requires |points| <= n
    ensures PointsPerMatch(points) == CalculateAvg(points, n)
  {
  }

  /** Past 50 matches "Points/Match" and "Avg Points" differ: one draw followed
      by fifty wins. */
  lemma PointsPerMatchDiffersAfterFifty()
    ensures var lst := [1] + seq(50, _ => 3);
      PointsPerMatch(lst) != CalculateAvg(lst, 50)
  {
    var tail: seq<nat> := seq(50, _ => 3);
    var lst: seq<nat> := [1] + tail;
    assert LastN(lst, 50) == tail;
    SumConst(tail, 3);
    SumPrepend(tail, 1);
    assert PointsPerMatch(lst) == 151.0 / 51.0;
  }

  lemma {:induction false} SumConst(s: seq<nat>, c: nat)
    requires forall i :: 0 <= i < |s| ==> s[i] == c
    ensures Sum(s) == |s| * c
  {
    if s != [] {
      SumConst(s[..|s| - 1], c);
    }
  }

  lemma {:induction false} SumPrepend(s: seq<int>, x: int)
    ensures Sum([x] + s) == x + Sum(s)
  {
    if s == [] {
      assert [x] + s == [x];
    } else {
      var last := s[|s| - 1];
      SumPrepend(s[..|s| - 1], x);
      assert ([x] + s)[..|s|] == [x] + s[..|s| - 1];
    }
  }

  // ---------------------------------------------------------------------------
  // What the histories hold after some prefix of the table

  /** One row's update of the team store (home side first, as in the source). */
  function RecordTeam(s: Series, row: MatchRow, t: Team): Series
  {
    var (hp, ap) := Points(row.gHome, row.gAway);
    var s1 := if row.home == t then s.Add(hp, row.gHome, row.gAway) else s;
    if row.away == t then s1.Add(ap, row.gAway, row.gHome) else s1
  }

  /** One row's update of the head-to-head store: the key (home, away) gets
      the home side's numbers and (away, home) the away side's. */
  function RecordPair(s: Series, row: MatchRow, x: Team, y: Team): Series
  {
    var (hp, ap) := Points(row.gHome, row.gAway);
    var s1 := if row.home == x && row.away == y then s.Add(hp, row.gHome, row.gAway) else s;
    if row.away == x && row.home == y then s1.Add(ap, row.gAway, row.gHome) else s1
  }

  /** `team_stats_history[t]` after the rows `prior`. */
  function TeamSeries(prior: seq<MatchRow>, t: Team): Series
  {
    if prior == [] then EmptySeries
    else RecordTeam(TeamSeries(prior[..|prior| - 1], t), prior[|prior| - 1], t)
  }

  /** `head_to_head_stats[(x, y)]` after the rows `prior`. */
  function PairSeries(prior: seq<MatchRow>, x: Team, y: Team): Series
  {
    if prior == [] then EmptySeries
    else RecordPair(PairSeries(prior[..|prior| - 1], x, y), prior[|prior| - 1], x, y)
  }

  // ---------------------------------------------------------------------------
  // The features emitted per row

  datatype SideFeatures = SideFeatures(
    avgPoints: real, avgGoalsFor: real, avgGoalsAgainst: real,
    matchesPlayed: nat, pointsPerMatch: real,
    formPoints: real, formGoalsFor: real, formGoalsAgainst: real,
    h2hPoints: real, h2hGoalsFor: real, h2hGoalsAgainst: real)

  datatype MatchFeatures = MatchFeatures(
    homePoints: nat, awayPoints: nat, xScore: int,
    home: SideFeatures, away: SideFeatures)

  const OverallWindow: nat := 50
  const FormWindow: nat := 5
  const HeadToHeadWindow: nat := 5

  /** The columns for one side, read from its team history and its
      head-to-head history. */
  function Side(team: Series, pair: Series): SideFeatures
  {
    SideFeatures(
      CalculateAvg(team.points, OverallWindow),
      CalculateAvg(team.goalsFor, OverallWindow),
      CalculateAvg(team.goalsAgainst, OverallWindow),
      |team.points|,
      PointsPerMatch(team.points),
      CalculateAvg(team.points, FormWindow),
      CalculateAvg(team.goalsFor, FormWindow),
      CalculateAvg(team.goalsAgainst, FormWindow),
      CalculateAvg(pair.points, HeadToHeadWindow),
      CalculateAvg(pair.goalsFor, HeadToHeadWindow),
      CalculateAvg(pair.goalsAgainst, HeadToHeadWindow))
  }

  /** The features of `row` given the rows `prior` before it. */
  function RowFeatures(prior: seq<MatchRow>, row: MatchRow): MatchFeatures
  {
    var (hp, ap) := Points(row.gHome, row.gAway);
    MatchFeatures(hp, ap, XScore(row.xgHome, row.xgAway),
      Side(TeamSeries(prior, row.home), PairSeries(prior, row.home, row.away)),
      Side(TeamSeries(prior, row.away), PairSeries(prior, row.away, row.home)))
  }

  function FeaturesAt(rows: seq<MatchRow>, i: nat): MatchFeatures
    requires i < |rows|
  {
    RowFeatures(rows[..i], rows[i])
  }

  function Homes(rows: seq<MatchRow>): set<Team>
  {
    set r | r in rows :: r.home
  }

  function Aways(rows: seq<MatchRow>): set<Team>
  {
    set r | r in rows :: r.away
  }

  /** The keys of `team_stats_history`: every team of either column. */
  function TeamsOf(rows: seq<MatchRow>): set<Team>
  {
    Homes(rows) + Aways(rows)
  }

  /** The keys the source gives `head_to_head_stats`: Home values x Away values. */
  function SourcePairKeys(rows: seq<MatchRow>): set<(Team, Team)>
  {
    set h, a | h in Homes(rows) && a in Aways(rows) :: (h, a)
  }

  /** Both head-to-head lookups of a row find a key. */
  predicate PairsSeeded(row: MatchRow, pairKeys: set<(Team, Team)>)
  {
    (row.home, row.away) in pairKeys && (row.away, row.home) in pairKeys
  }

  /** The whole computation when the head-to-head store is seeded with
      `pairKeys`: a missing key anywhere raises KeyError, otherwise row i
      gets the features of its histories over rows 0..i-1. */
  function AggSpec(rows: seq<MatchRow>, pairKeys: set<(Team, Team)>): Result<seq<MatchFeatures>>
  {
    if forall k :: 0 <= k < |rows| ==> PairsSeeded(rows[k], pairKeys) then
      Ok(seq(|rows|, k requires 0 <= k < |rows| => FeaturesAt(rows, k)))
    else
      Err(KeyError)
  }

  // ---------------------------------------------------------------------------
  // The loop

  /** The loop of `agg_prev_games` over `rows`, with the head-to-head store
      seeded with `pairKeys`: emit from the current histories, then append. */
  method Accumulate(rows: seq<MatchRow>, pairKeys: set<(Team, Team)>) returns (r: Result<seq<MatchFeatures>>)
    ensures r == AggSpec(rows, pairKeys)
  {
    var teams: map<Team, Series> := map t | t in TeamsOf(rows) :: EmptySeries;
    var pairs: map<(Team, Team), Series> := map p | p in pairKeys :: EmptySeries;
    var out: seq<MatchFeatures> := [];
    var i := 0;
    while i < |rows|
      invariant 0 <= i <= |rows|
      invariant SeededUpTo(rows, i, pairKeys)
      invariant teams.Keys == TeamsOf(rows)
      invariant forall t :: t in teams ==> teams[t] == TeamSeries(rows[..i], t)
      invariant pairs.Keys == pairKeys
      invariant forall p :: p in pairs ==> pairs[p] == PairSeries(rows[..i], p.0, p.1)
      invariant EmittedUpTo(out, rows, i)
    {
      var row := rows[i];
      if (row.home, row.away) !in pairs || (row.away, row.home) !in pairs {
        assert !PairsSeeded(rows[i], pairKeys);
        return Err(KeyError);
      }
      assert row in rows;
      var (hp, ap) := Points(row.gHome, row.gAway);
      // emit from the histories as they stand
      var homeSide := Side(teams[row.home], pairs[(row.home, row.away)]);
      var awaySide := Side(teams[row.away], pairs[(row.away, row.home)]);
      var f := MatchFeatures(hp, ap, XScore(row.xgHome, row.xgAway), homeSide, awaySide);
      assert f == FeaturesAt(rows, i);
      EmittedStep(out, rows, i);
      SeededStep(rows, i, pairKeys);
      out := out + [f];
      // then append this row's own result
      TeamStoreStep(teams, rows, i);
      PairStoreStep(pairs, rows, i);
      teams := teams[row.home := teams[row.home].Add(hp, row.gHome, row.gAway)];
      teams := teams[row.away := teams[row.away].Add(ap, row.gAway, row.gHome)];
      pairs := pairs[(row.home, row.away) := pairs[(row.home, row.away)].Add(hp, row.gHome, row.gAway)];
      pairs := pairs[(row.away, row.home) := pairs[(row.away, row.home)].Add(ap, row.gAway, row.gHome)];
      i := i + 1;
    }
    EmittedAll(out, rows);
    r := Ok(out);
  }

  /** Appending one row's result to the team store keeps it equal to the
      histories of the longer prefix. */
  lemma TeamStoreStep(teams: map<Team, Series>, rows: seq<MatchRow>, i: nat)
    requires i < |rows| && rows[i].home in teams && rows[i].away in teams
    requires forall t :: t in teams ==> teams[t] == TeamSeries(rows[..i], t)
    ensures var row := rows[i];
      var (hp, ap) := Points(row.gHome, row.gAway);
      var t1 := teams[row.home := teams[row.home].Add(hp, row.gHome, row.gAway)];
      var t2 := t1[row.away := t1[row.away].Add(ap, row.gAway, row.gHome)];
      t2.Keys == teams.Keys && forall t :: t in t2 ==> t2[t] == TeamSeries(rows[..i + 1], t)
  {
    assert rows[..i + 1][..i] == rows[..i];
  }

  /** Appending one row's result to the head-to-head store keeps it equal to
      the histories of the longer prefix. */
  lemma PairStoreStep(pairs: map<(Team, Team), Series>, rows: seq<MatchRow>, i: nat)
    requires i < |rows| && (rows[i].home, rows[i].away) in pairs && (rows[i].away, rows[i].home) in pairs
    requires forall p :: p in pairs ==> pairs[p] == PairSeries(rows[..i], p.0, p.1)
    ensures var row := rows[i];
      var (hp, ap) := Points(row.gHome, row.gAway);
      var p1 := pairs[(row.home, row.away) := pairs[(row.home, row.away)].Add(hp, row.gHome, row.gAway)];
      var p2 := p1[(row.away, row.home) := p1[(row.away, row.home)].Add(ap, row.gAway, row.gHome)];
      p2.Keys == pairs.Keys && forall p :: p in p2 ==> p2[p] == PairSeries(rows[..i + 1], p.0, p.1)
  {
    assert rows[..i + 1][..i] == rows[..i];
  }

  predicate SeededUpTo(rows: seq<MatchRow>, i: nat, pairKeys: set<(Team, Team)>)
    requires i <= |rows|
  {
    forall k :: 0 <= k < i ==> PairsSeeded(rows[k], pairKeys)
  }

  lemma SeededStep(rows: seq<MatchRow>, i: nat, pairKeys: set<(Team, Team)>)
    requires i < |rows| && SeededUpTo(rows, i, pairKeys) && PairsSeeded(rows[i], pairKeys)
    ensures SeededUpTo(rows, i + 1, pairKeys)
  {
  }

  predicate EmittedUpTo(out: seq<MatchFeatures>, rows: seq<MatchRow>, i: nat)
    requires i <= |rows|
  {
    |out| == i && forall k :: 0 <= k < i ==> out[k] == FeaturesAt(rows, k)
  }

  lemma EmittedStep(out: seq<MatchFeatures>, rows: seq<MatchRow>, i: nat)
    requires i < |rows| && EmittedUpTo(out, rows, i)
    ensures EmittedUpTo(out + [FeaturesAt(rows, i)], rows, i + 1)
  {
    var out' := out + [FeaturesAt(rows, i)];
    forall k | 0 <= k < i + 1
      ensures out'[k] == FeaturesAt(rows, k)
    {
      if k < i {
        assert out'[k] == out[k];
      }
    }
  }

  lemma EmittedAll(out: seq<MatchFeatures>, rows: seq<MatchRow>)
    requires EmittedUpTo(out, rows, |rows|)
    ensures out == seq(|rows|, k requires 0 <= k < |rows| => FeaturesAt(rows, k))
  {
  }

  /** `agg_prev_games` as written: the head-to-head store is seeded only with
      (Home value, Away value) pairs. */
  method AggPrevGames(rows: seq<MatchRow>) returns (r: Result<seq<MatchFeatures>>)
    ensures r == AggSpec(rows, SourcePairKeys(rows))
  {
    r := Accumulate(rows, SourcePairKeys(rows));
  }

  /** Every pair of teams of the table, in both orders. */
  function AllPairKeys(rows: seq<MatchRow>): set<(Team, Team)>
  {
    set x, y | x in TeamsOf(rows) && y in TeamsOf(rows) :: (x, y)
  }

  /** `agg_prev_games` with the head-to-head store seeded with every pair of
      teams, so that no lookup can miss. */
  method AggPrevGamesAllPairs(rows: seq<MatchRow>) returns (r: Result<seq<MatchFeatures>>)
    ensures r == AggSpec(rows, AllPairKeys(rows))
    ensures r.Ok? && |r.value| == |rows|
  {
    AllPairsNeverFail(rows);
    r := Accumulate(rows, AllPairKeys(rows));
  }

  // ---------------------------------------------------------------------------
  // Properties of the specification

  /** With every pair seeded, no head-to-head lookup misses. */
  lemma AllPairsNeverFail(rows: seq<MatchRow>)
    ensures AggSpec(rows, AllPairKeys(rows)).Ok?
  {
    forall k | 0 <= k < |rows| ensures PairsSeeded(rows[k], AllPairKeys(rows)) {
      assert rows[k] in rows;
      assert rows[k].home in TeamsOf(rows) && rows[k].away in TeamsOf(rows);
    }
  }

  /** As written, the run raises KeyError exactly when some row's away team
      never appears in the Home column or its home team never appears in the
      Away column. */
  lemma SourceSeedingFailsIff(rows: seq<MatchRow>)
    ensures AggSpec(rows, SourcePairKeys(rows)).Err? <==>
      exists k :: 0 <= k < |rows| && (rows[k].away !in Homes(rows) || rows[k].home !in Aways(rows))
  {
    var keys := SourcePairKeys(rows);
    forall k | 0 <= k < |rows|
      ensures PairsSeeded(rows[k], keys) <==> rows[k].away in Homes(rows) && rows[k].home in Aways(rows)
    {
      assert rows[k] in rows;
      assert (rows[k].home, rows[k].away) in keys;
      if rows[k].away in Homes(rows) && rows[k].home in Aways(rows) {
        assert (rows[k].away, rows[k].home) in keys;
      }
    }
  }

  /** Emit before update: the features of row i for both sides are the same
      for any two tables that agree on the rows before i and on who plays in
      row i, whatever row i's own score and whatever follows it. */
  lemma FeaturesUseOnlyEarlierRows(rows: seq<MatchRow>, rows': seq<MatchRow>, i: nat)
    requires i < |rows| && i < |rows'|
    requires rows[..i] == rows'[..i]
    requires rows[i].home == rows'[i].home && rows[i].away == rows'[i].away
    ensures FeaturesAt(rows, i).home == FeaturesAt(rows', i).home
    ensures FeaturesAt(rows, i).away == FeaturesAt(rows', i).away
  {
  }

  /** Rows in which `t` plays at home plus rows in which it plays away. */
  function Appearances(prior: seq<MatchRow>, t: Team): nat
  {
    if prior == [] then 0
    else
      var row := prior[|prior| - 1];
      Appearances(prior[..|prior| - 1], t) + (if row.home == t then 1 else 0) + (if row.away == t then 1 else 0)
  }

  /** The three lists of a team grow together, one entry per appearance. */
  lemma {:induction false} TeamSeriesLength(prior: seq<MatchRow>, t: Team)
    ensures TeamSeries(prior, t).Balanced()
    ensures |TeamSeries(prior, t).points| == Appearances(prior, t)
  {
    if prior != [] {
      TeamSeriesLength(prior[..|prior| - 1], t);
    }
  }

  /** "Matches Played" of row i counts the earlier rows the team played in. */
  lemma MatchesPlayedIsEarlierAppearances(rows: seq<MatchRow>, i: nat)
    requires i < |rows|
    ensures FeaturesAt(rows, i).home.matchesPlayed == Appearances(rows[..i], rows[i].home)
    ensures FeaturesAt(rows, i).away.matchesPlayed == Appearances(rows[..i], rows[i].away)
  {
    TeamSeriesLength(rows[..i], rows[i].home);
    TeamSeriesLength(rows[..i], rows[i].away);
  }

  /** Row `row` is a meeting of x and y, whichever is at home. */
  predicate Meets(row: MatchRow, x: Team, y: Team)
  {
    (row.home == x && row.away == y) || (row.home == y && row.away == x)
  }

  /** The rows of `prior` that are meetings of x and y, in order. */
  function Meetings(prior: seq<MatchRow>, x: Team, y: Team): seq<MatchRow>
  {
    if prior == [] then []
    else
      var row := prior[|prior| - 1];
      Meetings(prior[..|prior| - 1], x, y) + (if Meets(row, x, y) then [row] else [])
  }

  /** x's points, goals for and goals against in a match x played. */
  function Perspective(row: MatchRow, x: Team): (nat, nat, nat)
  {
    var (hp, ap) := Points(row.gHome, row.gAway);
    if row.home == x then (hp, row.gHome, row.gAway) else (ap, row.gAway, row.gHome)
  }

  /** x's results in the matches `rs`, as three parallel lists. */
  function SeriesOf(rs: seq<MatchRow>, x: Team): Series
  {
    if rs == [] then EmptySeries
    else
      var (p, gf, ga) := Perspective(rs[|rs| - 1], x);
      SeriesOf(rs[..|rs| - 1], x).Add(p, gf, ga)
  }

  /** For x != y, the key (x, y) holds x's results in every earlier meeting
      with y, whichever side was at home. */
  lemma {:induction false} PairSeriesIsMeetings(prior: seq<MatchRow>, x: Team, y: Team)
    requires x != y
    ensures PairSeries(prior, x, y) == SeriesOf(Meetings(prior, x, y), x)
  {
    if prior != [] {
      var init, row := prior[..|prior| - 1], prior[|prior| - 1];
      PairSeriesIsMeetings(init, x, y);
      var m := Meetings(init, x, y);
      if Meets(row, x, y) {
        assert (m + [row])[..|m|] == m;
        var (p, gf, ga) := Perspective(row, x);
        assert SeriesOf(m + [row], x) == SeriesOf(m, x).Add(p, gf, ga);
        assert RecordPair(PairSeries(init, x, y), row, x, y) == PairSeries(init, x, y).Add(p, gf, ga);
      } else {
        assert m + [] == m;
      }
    }
  }

  /** Meeting lists are symmetric. */
  lemma {:induction false} MeetingsSymmetric(prior: seq<MatchRow>, x: Team, y: Team)
    ensures Meetings(prior, x, y) == Meetings(prior, y, x)
  {
    if prior != [] {
      MeetingsSymmetric(prior[..|prior| - 1], x, y);
    }
  }

  lemma {:induction false} SeriesOfLength(rs: seq<MatchRow>, x: Team)
    ensures SeriesOf(rs, x).Balanced() && |SeriesOf(rs, x).points| == |rs|
  {
    if rs != [] {
      SeriesOfLength(rs[..|rs| - 1], x);
    }
  }

  /** For x != y, (x, y) and (y, x) grow together: both hold one entry per
      earlier meeting. */
  lemma PairsGrowTogether(prior: seq<MatchRow>, x: Team, y: Team)
    requires x != y
    ensures PairSeries(prior, x, y).Balanced() && PairSeries(prior, y, x).Balanced()
    ensures |PairSeries(prior, x, y).points| == |PairSeries(prior, y, x).points| == |Meetings(prior, x, y)|
  {
    PairSeriesIsMeetings(prior, x, y);
    PairSeriesIsMeetings(prior, y, x);
    MeetingsSymmetric(prior, x, y);
    SeriesOfLength(Meetings(prior, x, y), x);
    SeriesOfLength(Meetings(prior, x, y), y);
  }

  /** A row changes no head-to-head key other than (home, away) and (away, home). */
  lemma OtherPairsUnchanged(prior: seq<MatchRow>, row: MatchRow, x: Team, y: Team)
    requires (x, y) != (row.home, row.away) && (x, y) != (row.away, row.home)
    ensures PairSeries(prior + [row], x, y) == PairSeries(prior, x, y)
  {
    assert (prior + [row])[..|prior|] == prior;
  }

  /** The rows of `prior` in which t plays. */
  function Involving(prior: seq<MatchRow>, t: Team): seq<MatchRow>
  {
    if prior == [] then []
    else
      var row := prior[|prior| - 1];
      Involving(prior[..|prior| - 1], t) + (if row.home == t || row.away == t then [row] else [])
  }

  predicate NoSelfMatches(rows: seq<MatchRow>)
  {
    forall k :: 0 <= k < |rows| ==> rows[k].home != rows[k].away
  }

  /** Without self-matches, a team's history is its results in the earlier
      matches it played, home or away, in order. */
  lemma {:induction false} TeamSeriesIsInvolving(prior: seq<MatchRow>, t: Team)
    requires NoSelfMatches(prior)
    ensures TeamSeries(prior, t) == SeriesOf(Involving(prior, t), t)
  {
    if prior != [] {
      var init, row := prior[..|prior| - 1], prior[|prior| - 1];
      TeamSeriesIsInvolving(init, t);
      var m := Involving(init, t);
      if row.home == t || row.away == t {
        assert (m + [row])[..|m|] == m;
        var (p, gf, ga) := Perspective(row, t);
        assert SeriesOf(m + [row], t) == SeriesOf(m, t).Add(p, gf, ga);
        assert RecordTeam(TeamSeries(init, t), row, t) == TeamSeries(init, t).Add(p, gf, ga);
      } else {
        assert m + [] == m;
      }
    }
  }

  lemma {:induction false} PointsAtMostThree(prior: seq<MatchRow>, t: Team, x: Team, y: Team)
    ensures forall i :: 0 <= i < |TeamSeries(prior, t).points| ==> TeamSeries(prior, t).points[i] <= 3
    ensures forall i :: 0 <= i < |PairSeries(prior, x, y).points| ==> PairSeries(prior, x, y).points[i] <= 3
  {
    if prior != [] {
      PointsAtMostThree(prior[..|prior| - 1], t, x, y);
    }
  }

  /** Every points average emitted lies between 0 and 3. */
  lemma PointAveragesInRange(rows: seq<MatchRow>, i: nat)
    requires i < |rows|
    ensures var f := FeaturesAt(rows, i);
      && 0.0 <= f.home.avgPoints <= 3.0 && 0.0 <= f.away.avgPoints <= 3.0
      && 0.0 <= f.home.formPoints <= 3.0 && 0.0 <= f.away.formPoints <= 3.0
      && 0.0 <= f.home.h2hPoints <= 3.0 && 0.0 <= f.away.h2hPoints <= 3.0
      && 0.0 <= f.home.pointsPerMatch <= 3.0 && 0.0 <= f.away.pointsPerMatch <= 3.0
  {
    var prior, row := rows[..i], rows[i];
    PointsAtMostThree(prior, row.home, row.home, row.away);
    PointsAtMostThree(prior, row.away, row.away, row.home);
    var hs, as' := TeamSeries(prior, row.home).points, TeamSeries(prior, row.away).points;
    var hp, ap := PairSeries(prior, row.home, row.away).points, PairSeries(prior, row.away, row.home).points;
    AvgAtMost(hs, OverallWindow, 3);
    AvgAtMost(as', OverallWindow, 3);
    AvgAtMost(hs, FormWindow, 3);
    AvgAtMost(as', FormWindow, 3);
    AvgAtMost(hp, HeadToHeadWindow, 3);
    AvgAtMost(ap, HeadToHeadWindow, 3);
    AvgAtMost(hs, |hs|, 3);
    AvgAtMost(as', |as'|, 3);
  }

  // ---------------------------------------------------------------------------
  // The three-match scenario: A beats B 2-1, draws C 1-1, wins 3-0 at B

  function Scenario(): seq<MatchRow>
  {
    [ MatchRow("TeamA", "TeamB", 2, 1, 0.0, 0.0),
      MatchRow("TeamA", "TeamC", 1, 1, 0.0, 0.0),
      MatchRow("TeamB", "TeamA", 0, 3, 0.0, 0.0) ]
  }

  /** As written, the scenario raises KeyError: TeamC never plays at home, so
      the key (TeamC, TeamA) read for the second match was never created. */
  lemma ScenarioRaisesAsWritten()
    ensures AggSpec(Scenario(), SourcePairKeys(Scenario())) == Err(KeyError)
  {
    var rows := Scenario();
    assert Homes(rows) == {"TeamA", "TeamB"};
    assert !PairsSeeded(rows[1], SourcePairKeys(rows));
  }

  /** With every pair seeded, TeamA has played 2 matches before the third
      row and averages (3 + 1) / 2 = 2 points. */
  lemma ScenarioWithAllPairs()
    ensures AggSpec(Scenario(), AllPairKeys(Scenario())).Ok?
    ensures var f := AggSpec(Scenario(), AllPairKeys(Scenario())).value[2].away;
      f.matchesPlayed == 2 && f.avgPoints == 2.0 && f.pointsPerMatch == 2.0
  {
    var rows := Scenario();
    AllPairsNeverFail(rows);
    var prior := rows[..2];
    assert prior[..1] == [rows[0]];
    assert [rows[0]][..0] == [];
    var a := TeamSeries(prior, "TeamA");
    assert TeamSeries([rows[0]], "TeamA").points == [3];
    assert a.points == [3, 1];
    assert Sum([3, 1]) == 4 by {
      assert [3, 1][..1] == [3];
      assert [3][..0] == [];
    }
  }
}
