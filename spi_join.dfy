/** `__extend_df_with_spi` of service/spi_matcher.py: every fixture row gets
    nine SPI columns, first set to NA, then copied from the first SPI match
    played on the same date by the resolved home team (as `team1`) or the
    resolved away team (as `team2`). */
module SpiJoin {
  import opened Common
  import opened TeamNames

  /** A data-frame cell: missing, or a number. */
  datatype Cell = NA | Value(x: real)

  /** importance1, importance2, proj_score1, proj_score2, spi1, spi2, prob1,
      prob2, probtie. */
  datatype SpiColumns = SpiColumns(
    importance1: Cell, importance2: Cell,
    projScore1: Cell, projScore2: Cell,
    spi1: Cell, spi2: Cell,
    prob1: Cell, prob2: Cell, probtie: Cell)

  const AllNA := SpiColumns(NA, NA, NA, NA, NA, NA, NA, NA, NA)

  /** A row of the fixture frame: the columns the join reads, the columns it
      leaves alone, and the nine SPI columns. */
  datatype Fixture = Fixture(date: string, home: string, away: string, other: seq<string>, spi: SpiColumns)

  /** A row of the SPI match table. */
  datatype SpiMatch = SpiMatch(date: string, team1: string, team2: string, cols: SpiColumns)

  /** The candidate names: unique `team1` values, then unique `team2` values. */
  function Candidates(df2: seq<SpiMatch>): seq<string>
  {
    Unique(seq(|df2|, k requires 0 <= k < |df2| => df2[k].team1))
      + Unique(seq(|df2|, k requires 0 <= k < |df2| => df2[k].team2))
  }

  /** The query `date == match_date and (team1 == home or team2 == away)`;
      an unresolved name (None) equals no team. */
  predicate Joins(m: SpiMatch, date: string, home: Option<string>, away: Option<string>)
  {
    m.date == date && (Some(m.team1) == home || Some(m.team2) == away)
  }

  /** The columns of the first joining SPI row, if any. */
  function FirstJoin(df2: seq<SpiMatch>, date: string, home: Option<string>, away: Option<string>)
    : (r: Option<SpiColumns>)
    ensures r.None? <==> forall k :: 0 <= k < |df2| ==> !Joins(df2[k], date, home, away)
    ensures r.Some? ==> exists k :: 0 <= k < |df2| && Joins(df2[k], date, home, away) && r.value == df2[k].cols
  {
    if df2 == [] then None
    else if Joins(df2[0], date, home, away) then Some(df2[0].cols)
    else
      var r := FirstJoin(df2[1..], date, home, away);
      assert forall k :: 1 <= k < |df2| ==> df2[k] == df2[1..][k - 1];
      r
  }

  /** The row that is copied is the first joining one; later joins are
      ignored. */
  lemma {:induction false} FirstJoinIsFirstHit(df2: seq<SpiMatch>, date: string, home: Option<string>, away: Option<string>)
    returns (k: nat)
    requires FirstJoin(df2, date, home, away).Some?
    ensures k < |df2| && Joins(df2[k], date, home, away)
    ensures FirstJoin(df2, date, home, away).value == df2[k].cols
    ensures forall j :: 0 <= j < k ==> !Joins(df2[j], date, home, away)
  {
    if !Joins(df2[0], date, home, away) {
      var k' := FirstJoinIsFirstHit(df2[1..], date, home, away);
      k := k' + 1;
      forall j | 0 <= j < k
        ensures !Joins(df2[j], date, home, away)
      {
        if j > 0 {
          assert df2[j] == df2[1..][j - 1];
        }
      }
    } else {
      k := 0;
    }
  }

  /** Resolving both names of a fixture and looking up its SPI row.
      Resolution fails (TypeError) only when the SPI table is empty and a
      name has no override. */
  function RowJoin(row: Fixture, df2: seq<SpiMatch>, scorer: Scorer): Result<Option<SpiColumns>>
  {
    var home := MatchTeamName(SpiOverrides, scorer, row.home, Candidates(df2));
    if home.Err? then Err(home.error)
    else
      var away := MatchTeamName(SpiOverrides, scorer, row.away, Candidates(df2));
      if away.Err? then Err(away.error)
      else Ok(FirstJoin(df2, row.date, home.value, away.value))
  }

  /** The fixture row after the join: its SPI columns are the joined row's,
      or NA when nothing joined. */
  function Filled(row: Fixture, df2: seq<SpiMatch>, scorer: Scorer): (r: Fixture)
    ensures r.date == row.date && r.home == row.home && r.away == row.away && r.other == row.other
  {
    var joined := RowJoin(row, df2, scorer);
    row.(spi := if joined.Ok? && joined.value.Some? then joined.value.value else AllNA)
  }

  /** The SPI columns a row ends with are NA or those of an SPI row played
      on the fixture's date. */
  lemma FilledFromTable(row: Fixture, df2: seq<SpiMatch>, scorer: Scorer)
    ensures var r := Filled(row, df2, scorer);
      r.spi == AllNA || exists k :: 0 <= k < |df2| && df2[k].date == row.date && r.spi == df2[k].cols
  {
    var joined := RowJoin(row, df2, scorer);
    if joined.Ok? && joined.value.Some? {
      var home := MatchTeamName(SpiOverrides, scorer, row.home, Candidates(df2));
      var away := MatchTeamName(SpiOverrides, scorer, row.away, Candidates(df2));
      var k := FirstJoinIsFirstHit(df2, row.date, home.value, away.value);
    }
  }

  /** With no SPI rows nothing joins, so a failed resolution leaves the
      same NA columns a successful one would. */
  lemma EmptyTableFillsNA(row: Fixture, scorer: Scorer)
    ensures Filled(row, [], scorer) == row.(spi := AllNA)
  {
  }

  /** Extends `df1` in place. Row count and all non-SPI columns are kept;
      every row ends with the columns of its first joining SPI row, or NA.
      A TypeError escapes only when the SPI table is empty. */
  method ExtendWithSpi(df1: array<Fixture>, df2: seq<SpiMatch>, scorer: Scorer) returns (r: Result<()>)
    modifies df1
    ensures forall i :: 0 <= i < df1.Length ==> df1[i] == Filled(old(df1[i]), df2, scorer)
    ensures r.Err? <==> exists i :: 0 <= i < df1.Length && RowJoin(old(df1[i]), df2, scorer).Err?
    ensures r.Err? ==> r.error == TypeError && df2 == []
  {
    ghost var orig := df1[..];
    // The nine columns are created as NA on every row before any matching.
    var i := 0;
    while i < df1.Length
      invariant 0 <= i <= df1.Length
      invariant forall k :: 0 <= k < i ==> df1[k] == orig[k].(spi := AllNA)
      invariant forall k :: i <= k < df1.Length ==> df1[k] == orig[k]
    {
      df1[i] := df1[i].(spi := AllNA);
      i := i + 1;
    }
    var candidates := Candidates(df2);
    i := 0;
    while i < df1.Length
      invariant 0 <= i <= df1.Length
      invariant forall k :: 0 <= k < i ==> df1[k] == Filled(orig[k], df2, scorer)
      invariant forall k :: 0 <= k < i ==> RowJoin(orig[k], df2, scorer).Ok?
      invariant forall k :: i <= k < df1.Length ==> df1[k] == orig[k].(spi := AllNA)
    {
      var row := df1[i];
      var home := MatchTeamName(SpiOverrides, scorer, row.home, candidates);
      if home.Err? {
        EmptyCandidates(df2);
        forall k | i <= k < df1.Length
          ensures df1[k] == Filled(orig[k], df2, scorer)
        {
          EmptyTableFillsNA(orig[k], scorer);
        }
        return Err(home.error);
      }
      var away := MatchTeamName(SpiOverrides, scorer, row.away, candidates);
      if away.Err? {
        EmptyCandidates(df2);
        forall k | i <= k < df1.Length
          ensures df1[k] == Filled(orig[k], df2, scorer)
        {
          EmptyTableFillsNA(orig[k], scorer);
        }
        return Err(away.error);
      }
      var found := FirstJoin(df2, row.date, home.value, away.value);
      FillStep(orig[i], row, df2, scorer, home.value, away.value);
      if found.Some? {
        df1[i] := row.(spi := found.value);
      }
      i := i + 1;
    }
    r := Ok(());
  }

  /** One step of the row loop: with both names resolved, the row written
      back is the filled row. */
  lemma FillStep(orig: Fixture, row: Fixture, df2: seq<SpiMatch>, scorer: Scorer, home: Option<string>, away: Option<string>)
    requires row == orig.(spi := AllNA)
    requires MatchTeamName(SpiOverrides, scorer, row.home, Candidates(df2)) == Ok(home)
    requires MatchTeamName(SpiOverrides, scorer, row.away, Candidates(df2)) == Ok(away)
    ensures RowJoin(orig, df2, scorer).Ok?
    ensures Filled(orig, df2, scorer) ==
      (var found := FirstJoin(df2, row.date, home, away); if found.Some? then row.(spi := found.value) else row)
  {
  }

  /** The candidate list is empty only for an empty SPI table. */
  lemma EmptyCandidates(df2: seq<SpiMatch>)
    requires Candidates(df2) == []
    ensures df2 == []
  {
  }
}
