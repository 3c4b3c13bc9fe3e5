/** Player-rating lookup and the per-team aggregates of
    service/data_organizer.py: `find_player`, `calculate_avg_score`,
    `count_star_players`, the "Players Found %" column of `add_players_data`
    and the season-to-file-suffix step of `load_fifa`. */
module PlayerRatings {
  import opened Common
  import opened Strings

  /** A row of a season's rating table (the columns the lookup reads). */
  datatype RatingRow = RatingRow(name: string, overall: int)

  /** Rating given to a player with no row in the table. */
  const FallbackRating := 70
  /** A player rated at least this much is a star. */
  const StarRating := 85

  // ---------------------------------------------------------------------------
  // `find_player`

  /** Every lower-cased whitespace token of the query occurs in the
      lower-cased row name. */
  predicate NameMatches(query: string, name: string)
  {
    forall tok :: tok in Tokens(query) ==> Contains(Lower(name), Lower(tok))
  }

  predicate IsSubsequence<T(==)>(a: seq<T>, b: seq<T>)
  {
    a == [] || (b != [] && ((a[0] == b[0] && IsSubsequence(a[1..], b[1..])) || IsSubsequence(a, b[1..])))
  }

  /** The rows of the table whose name matches the query, in table order. */
  function FindPlayer(query: string, table: seq<RatingRow>): (r: seq<RatingRow>)
    ensures IsSubsequence(r, table)
  {
    if table == [] then []
    else if NameMatches(query, table[0].name) then [table[0]] + FindPlayer(query, table[1..])
    else FindPlayer(query, table[1..])
  }

  lemma {:induction false} SubsequenceMembers<T>(a: seq<T>, b: seq<T>, x: T)
    requires IsSubsequence(a, b) && x in a
    ensures x in b
  {
    if a[0] == b[0] && IsSubsequence(a[1..], b[1..]) {
      if x != a[0] {
        SubsequenceMembers(a[1..], b[1..], x);
      }
    } else {
      SubsequenceMembers(a, b[1..], x);
    }
  }

  /** A row is found exactly when it is in the table and its name matches. */
  lemma {:induction false} FindPlayerMembers(query: string, table: seq<RatingRow>, x: RatingRow)
    ensures x in FindPlayer(query, table) <==> x in table && NameMatches(query, x.name)
  {
    if table != [] {
      FindPlayerMembers(query, table[1..], x);
      assert x in table <==> x == table[0] || x in table[1..];
    }
  }

  /** The first row found is the first matching row of the table. */
  lemma {:induction false} FirstFoundIsFirstMatch(query: string, table: seq<RatingRow>) returns (i: nat)
    requires FindPlayer(query, table) != []
    ensures i < |table| && FindPlayer(query, table)[0] == table[i]
    ensures NameMatches(query, table[i].name)
    ensures forall j :: 0 <= j < i ==> !NameMatches(query, table[j].name)
  {
    if NameMatches(query, table[0].name) {
      i := 0;
    } else {
      var k := FirstFoundIsFirstMatch(query, table[1..]);
      i := k + 1;
      forall j | 0 <= j < i
        ensures !NameMatches(query, table[j].name)
      {
        if j > 0 {
          assert table[j] == table[1..][j - 1];
        }
      }
    }
  }

  // ---------------------------------------------------------------------------
  // Resolving one player

  /** The three `statistics` slots: no row, several rows, exactly one row. */
  datatype Lookup = NotFound | Ambiguous | Exact
  {
    function Slot(): nat
    {
      match this
      case NotFound => 0
      case Ambiguous => 1
      case Exact => 2
    }
  }

  /** The outcome and the rating used for a player: the fallback when no row
      matches, otherwise the first matching row's rating. */
  function Resolve(query: string, table: seq<RatingRow>): (r: (Lookup, int))
    ensures r.0 == NotFound <==> FindPlayer(query, table) == []
    ensures r.0 == Ambiguous <==> |FindPlayer(query, table)| > 1
    ensures r.0 == NotFound ==> r.1 == FallbackRating
    ensures r.0 != NotFound ==> r.1 == FindPlayer(query, table)[0].overall
  {
    var found := FindPlayer(query, table);
    if |found| == 0 then (NotFound, FallbackRating)
    else if |found| > 1 then (Ambiguous, found[0].overall)
    else (Exact, found[0].overall)
  }

  /** How many of the players resolve with the given outcome. */
  function OutcomeCount(players: seq<string>, table: seq<RatingRow>, o: Lookup): nat
  {
    if players == [] then 0
    else (OutcomeCount(players[..|players| - 1], table, o)
          + if Resolve(players[|players| - 1], table).0 == o then 1 else 0)
  }

  /** Every player lands in exactly one slot. */
  lemma {:induction false} OneSlotPerPlayer(players: seq<string>, table: seq<RatingRow>)
    ensures OutcomeCount(players, table, NotFound) + OutcomeCount(players, table, Ambiguous)
      + OutcomeCount(players, table, Exact) == |players|
  {
    if players != [] {
      OneSlotPerPlayer(players[..|players| - 1], table);
    }
  }

  /** The sum of the ratings used for the players. */
  function TotalRating(players: seq<string>, table: seq<RatingRow>): int
  {
    if players == [] then 0
    else TotalRating(players[..|players| - 1], table) + Resolve(players[|players| - 1], table).1
  }

  lemma ResolvedRatingBounds(query: string, table: seq<RatingRow>, lo: int, hi: int)
    requires lo <= FallbackRating <= hi
    requires forall x :: x in table ==> lo <= x.overall <= hi
    ensures lo <= Resolve(query, table).1 <= hi
  {
    var found := FindPlayer(query, table);
    if found != [] {
      SubsequenceMembers(found, table, found[0]);
    }
  }

  /** Each rating used is the fallback or a rating of the table, so the total
      lies between |players| times the smallest and the largest of those. */
  lemma {:induction false} TotalRatingBounds(players: seq<string>, table: seq<RatingRow>, lo: int, hi: int)
    requires lo <= FallbackRating <= hi
    requires forall x :: x in table ==> lo <= x.overall <= hi
    ensures |players| * lo <= TotalRating(players, table) <= |players| * hi
  {
    if players != [] {
      var init := players[..|players| - 1];
      var p := players[|players| - 1];
      var n := |init|;
      TotalRatingBounds(init, table, lo, hi);
      ResolvedRatingBounds(p, table, lo, hi);
      var rest, rating := TotalRating(init, table), Resolve(p, table).1;
      assert TotalRating(players, table) == rest + rating;
      assert n * lo <= rest <= n * hi;
      MulSucc(n, lo);
      MulSucc(n, hi);
    }
  }

  lemma MulSucc(n: nat, x: int)
    ensures (n + 1) * x == n * x + x
  {
  }

  // ---------------------------------------------------------------------------
  // `calculate_avg_score` and `count_star_players`

  /** The team's average rating; each player also bumps one slot of the
      caller's three-slot `statistics` list. The weighting of elite players
      is commented out in the source, so every player weighs 1. */
  method CalculateAvgScore(players: seq<string>, table: seq<RatingRow>, statistics: array<int>) returns (r: Result<real>)
    requires statistics.Length == 3
    modifies statistics
    ensures forall o: Lookup :: statistics[o.Slot()] == old(statistics[o.Slot()]) + OutcomeCount(players, table, o)
    ensures r == if |players| == 0 then Err(ZeroDivisionError)
                 else Ok(TotalRating(players, table) as real / |players| as real)
  {
    var totalScore := 0;
    var extraWeights := 0;
    var i := 0;
    while i < |players|
      invariant 0 <= i <= |players|
      invariant totalScore == TotalRating(players[..i], table)
      invariant forall o: Lookup :: statistics[o.Slot()] == old(statistics[o.Slot()]) + OutcomeCount(players[..i], table, o)
    {
      var (outcome, overall) := Resolve(players[i], table);
      statistics[outcome.Slot()] := statistics[outcome.Slot()] + 1;
      totalScore := totalScore + overall;
      assert players[..i + 1][..i] == players[..i];
      i := i + 1;
    }
    assert players[..i] == players;
    if |players| + extraWeights == 0 {
      return Err(ZeroDivisionError);
    }
    r := Ok(totalScore as real / (|players| + extraWeights) as real);
  }

  /** How many players resolve to a rating of at least 85. */
  function StarCount(players: seq<string>, table: seq<RatingRow>): nat
  {
    if players == [] then 0
    else (StarCount(players[..|players| - 1], table)
          + if Resolve(players[|players| - 1], table).1 >= StarRating then 1 else 0)
  }

  method CountStarPlayers(players: seq<string>, table: seq<RatingRow>) returns (count: nat)
    ensures count == StarCount(players, table)
  {
    count := 0;
    var i := 0;
    while i < |players|
      invariant 0 <= i <= |players|
      invariant count == StarCount(players[..i], table)
    {
      var (_, overall) := Resolve(players[i], table);
      if overall >= StarRating {
        count := count + 1;
      }
      assert players[..i + 1][..i] == players[..i];
      i := i + 1;
    }
    assert players[..i] == players;
  }

  /** A player without a row gets the fallback 70 and is never a star, so
      the star count never exceeds the players found. */
  lemma {:induction false} StarsAreFound(players: seq<string>, table: seq<RatingRow>)
    ensures StarCount(players, table) <= |players| - OutcomeCount(players, table, NotFound)
  {
    if players != [] {
      StarsAreFound(players[..|players| - 1], table);
      OneSlotPerPlayer(players[..|players| - 1], table);
      OneSlotPerPlayer(players, table);
    }
  }

  // ---------------------------------------------------------------------------
  // The per-match columns of `add_players_data`

  /** "Players Found %": the share of lookups that found at least one row. */
  function FoundRatio(statistics: seq<int>): (r: Result<real>)
    requires |statistics| == 3
    ensures (statistics[0] + statistics[1] + statistics[2] == 0) <==> r == Err(ZeroDivisionError)
    ensures r.Ok? && statistics[0] >= 0 && statistics[1] >= 0 && statistics[2] >= 0 ==> 0.0 <= r.value <= 1.0
  {
    var total := statistics[0] + statistics[1] + statistics[2];
    if total == 0 then Err(ZeroDivisionError)
    else
      var found := statistics[1] + statistics[2];
      RatioBounds(found, total);
      Ok(found as real / total as real)
  }

  datatype PlayerFeatures = PlayerFeatures(
    homeAvgScore: real, awayAvgScore: real,
    homeStars: nat, awayStars: nat,
    foundRatio: real)

  /** The five player columns of one match. The statistics start at
      [0, 0, 0] for every match and collect both sides' lookups. */
  method MatchPlayerFeatures(home: seq<string>, away: seq<string>, table: seq<RatingRow>) returns (r: Result<PlayerFeatures>)
    ensures r.Err? <==> home == [] || away == []
    ensures r.Ok? ==>
      && r.value.homeAvgScore == TotalRating(home, table) as real / |home| as real
      && r.value.awayAvgScore == TotalRating(away, table) as real / |away| as real
      && r.value.homeStars == StarCount(home, table)
      && r.value.awayStars == StarCount(away, table)
      && 0.0 <= r.value.foundRatio <= 1.0
      && r.value.foundRatio ==
           (|home| + |away| - OutcomeCount(home, table, NotFound) - OutcomeCount(away, table, NotFound)) as real
           / (|home| + |away|) as real
  {
    var statistics := new int[3](_ => 0);
    var homeAvg := CalculateAvgScore(home, table, statistics);
    if homeAvg.Err? {
      return Err(homeAvg.error);
    }
    var awayAvg := CalculateAvgScore(away, table, statistics);
    if awayAvg.Err? {
      return Err(awayAvg.error);
    }
    var homeStars := CountStarPlayers(home, table);
    var awayStars := CountStarPlayers(away, table);
    OneSlotPerPlayer(home, table);
    OneSlotPerPlayer(away, table);
    assert statistics[NotFound.Slot()] == OutcomeCount(home, table, NotFound) + OutcomeCount(away, table, NotFound);
    assert statistics[Ambiguous.Slot()] == OutcomeCount(home, table, Ambiguous) + OutcomeCount(away, table, Ambiguous);
    assert statistics[Exact.Slot()] == OutcomeCount(home, table, Exact) + OutcomeCount(away, table, Exact);
    var found := FoundRatio(statistics[..]);
    r := Ok(PlayerFeatures(homeAvg.value, awayAvg.value, homeStars, awayStars, found.value));
  }

  lemma RatioBounds(part: int, total: int)
    requires total != 0
    ensures 0 <= part <= total ==> 0.0 <= part as real / total as real <= 1.0
  {
    if 0 <= part <= total {
      var q := part as real / total as real;
      assert q * total as real == part as real;
    }
  }

  // ---------------------------------------------------------------------------
  // `load_fifa`: which season file to read

  /** The two-digit suffix of the season's second year ("2021-2022" -> "22"). */
  function SeasonSuffix(season: string): (r: Result<string>)
    ensures r.Ok? ==> |r.value| == 2
  {
    var parts := SplitOn(season, '-');
    if |parts| < 2 then Err(IndexError)
    else
      var year := parts[1];
      if |year| < 4 then Err(IndexError)
      else Ok([year[2], year[3]])
  }

  /** For a season written first-year, '-', second-year (neither containing
      '-', the second at least four characters), the suffix is the third and
      fourth characters of the second year. */
  lemma SeasonSuffixOfSeason(first: string, second: string)
    requires Free(first, '-') && Free(second, '-') && |second| >= 4
    ensures SeasonSuffix(first + "-" + second) == Ok(second[2..4])
  {
    SplitOnFree(first, '-');
    SplitOnFree(second, '-');
    SplitOnConcat(first, second, '-');
    assert SplitOn(first + "-" + second, '-')[1] == second;
    assert [second[2], second[3]] == second[2..4];
  }

  /** A season label without '-' has no second year: IndexError. */
  lemma SeasonSuffixNeedsDash(season: string)
    requires Free(season, '-')
    ensures SeasonSuffix(season) == Err(IndexError)
  {
    SplitOnFree(season, '-');
  }
}
