/** Attaching Elo ratings to matches. service/scrappers/clubelo_scrapper.py
    resolves each side against the day's Elo clubs (with overrides) and
    takes the first row of the resolved club, or 0; data/clubelo_scrapper.py
    resolves against the match table's own team names (no overrides), looks
    the name up in a last-write-wins dictionary, and writes None when that
    fails. Both issue one update per match. */
module ClubElo {
  import opened Common
  import opened TeamNames

  /** A row of the day's Elo table. */
  datatype EloRow = EloRow(club: string, elo: real)

  /** The Elo table of a date (`fetch_elo_ratings`); the HTTP request and
      CSV parsing are not part of this model. */
  type EloFeed = string -> seq<EloRow>

  function Clubs(eloData: seq<EloRow>): (r: seq<string>)
    ensures |r| == |eloData| && forall k :: 0 <= k < |r| ==> r[k] == eloData[k].club
  {
    seq(|eloData|, k requires 0 <= k < |eloData| => eloData[k].club)
  }

  /** The updates a loop has issued, and whether they were committed. */
  class UpdateLog<U> {
    var updates: seq<U>
    var committed: bool

    constructor()
      ensures updates == [] && !committed
    {
      updates := [];
      committed := false;
    }

    method Update(u: U)
      modifies this
      ensures updates == old(updates) + [u] && committed == old(committed)
    {
      updates := updates + [u];
    }

    method Commit()
      modifies this
      ensures committed && updates == old(updates)
    {
      committed := true;
    }
  }

  // ---------------------------------------------------------------------------
  // service/scrappers/clubelo_scrapper.py

  /** The Elo of the first row whose club equals the resolved name, and 0
      when there is none, including when the name did not resolve. */
  function EloValue(eloData: seq<EloRow>, team: Option<string>): (r: real)
    ensures (forall k :: 0 <= k < |eloData| ==> Some(eloData[k].club) != team) ==> r == 0.0
    ensures r != 0.0 ==> exists k :: 0 <= k < |eloData| && Some(eloData[k].club) == team && r == eloData[k].elo
  {
    if eloData == [] then 0.0
    else if Some(eloData[0].club) == team then eloData[0].elo
    else
      var r := EloValue(eloData[1..], team);
      assert forall k :: 1 <= k < |eloData| ==> eloData[k] == eloData[1..][k - 1];
      r
  }

  /** When the resolved club is listed, the value is that of its first row. */
  lemma {:induction false} EloValueIsFirstRow(eloData: seq<EloRow>, team: Option<string>, k: nat)
    requires k < |eloData| && Some(eloData[k].club) == team
    requires forall j :: 0 <= j < k ==> Some(eloData[j].club) != team
    ensures EloValue(eloData, team) == eloData[k].elo
  {
    if k > 0 {
      forall j | 0 <= j < k - 1
        ensures Some(eloData[1..][j].club) != team
      {
        assert eloData[1..][j] == eloData[j + 1];
      }
      EloValueIsFirstRow(eloData[1..], team, k - 1);
    }
  }

  datatype Fixture = Fixture(gameId: int, home: string, away: string, date: string)

  /** The arguments of one `update_elo_ratings` call. */
  datatype EloUpdate = EloUpdate(homeElo: real, awayElo: real, gameId: int)

  /** The update issued for one match; resolution raises TypeError when the
      day's Elo table is empty and the name has no override. */
  function UpdateFor(m: Fixture, feed: EloFeed, scorer: Scorer): (r: Result<EloUpdate>)
    ensures r.Ok? ==> r.value.gameId == m.gameId
    ensures r.Err? ==> feed(m.date) == []
  {
    var eloData := feed(m.date);
    var home := MatchTeamName(EloOverrides, scorer, m.home, Clubs(eloData));
    if home.Err? then Err(home.error)
    else
      var away := MatchTeamName(EloOverrides, scorer, m.away, Clubs(eloData));
      if away.Err? then Err(away.error)
      else Ok(EloUpdate(EloValue(eloData, home.value), EloValue(eloData, away.value), m.gameId))
  }

  /** How many matches, from the first, get their update before one raises. */
  function Completed(matches: seq<Fixture>, feed: EloFeed, scorer: Scorer): (n: nat)
    ensures n <= |matches|
    ensures forall k :: 0 <= k < n ==> UpdateFor(matches[k], feed, scorer).Ok?
    ensures n < |matches| ==> UpdateFor(matches[n], feed, scorer).Err?
  {
    if matches == [] then 0
    else if UpdateFor(matches[0], feed, scorer).Err? then 0
    else
      var n := Completed(matches[1..], feed, scorer);
      assert forall k :: 1 <= k < n + 1 ==> matches[k] == matches[1..][k - 1];
      1 + n
  }

  /** `scrap_clubelo_to_database`: one `update_elo_ratings` call per match,
      in order and with that match's game id, then one commit. An escaping
      TypeError stops the loop before the commit. */
  method ScrapClubEloToDatabase(matches: seq<Fixture>, feed: EloFeed, scorer: Scorer, db: UpdateLog<EloUpdate>)
    returns (r: Result<()>)
    modifies db
    ensures r.Ok? <==> Completed(matches, feed, scorer) == |matches|
    ensures db.updates == old(db.updates) + Issued(matches, feed, scorer, Completed(matches, feed, scorer))
    ensures db.committed == (r.Ok? || old(db.committed))
  {
    ghost var start := db.updates;
    var i := 0;
    while i < |matches|
      invariant 0 <= i <= |matches|
      invariant forall k :: 0 <= k < i ==> UpdateFor(matches[k], feed, scorer).Ok?
      invariant db.updates == start + Issued(matches, feed, scorer, i)
      invariant db.committed == old(db.committed)
    {
      var m := matches[i];
      var eloData := feed(m.date);
      var homeTeam := MatchTeamName(EloOverrides, scorer, m.home, Clubs(eloData));
      if homeTeam.Err? {
        assert UpdateFor(m, feed, scorer).Err?;
        CompletedAt(matches, feed, scorer, i);
        return Err(homeTeam.error);
      }
      var awayTeam := MatchTeamName(EloOverrides, scorer, m.away, Clubs(eloData));
      if awayTeam.Err? {
        assert UpdateFor(m, feed, scorer).Err?;
        CompletedAt(matches, feed, scorer, i);
        return Err(awayTeam.error);
      }
      var homeElo := EloValue(eloData, homeTeam.value);
      var awayElo := EloValue(eloData, awayTeam.value);
      var u := EloUpdate(homeElo, awayElo, m.gameId);
      assert UpdateFor(m, feed, scorer) == Ok(u);
      IssuedStep(matches, feed, scorer, i);
      db.Update(u);
      i := i + 1;
    }
    CompletedAt(matches, feed, scorer, i);
    db.Commit();
    r := Ok(());
  }

  /** The updates issued for the first `n` matches, all of which resolve. */
  function Issued(matches: seq<Fixture>, feed: EloFeed, scorer: Scorer, n: nat): seq<EloUpdate>
    requires n <= |matches|
    requires forall k :: 0 <= k < n ==> UpdateFor(matches[k], feed, scorer).Ok?
  {
    seq(n, k requires 0 <= k < n => UpdateFor(matches[k], feed, scorer).value)
  }

  lemma IssuedStep(matches: seq<Fixture>, feed: EloFeed, scorer: Scorer, n: nat)
    requires n < |matches|
    requires forall k :: 0 <= k <= n ==> UpdateFor(matches[k], feed, scorer).Ok?
    ensures Issued(matches, feed, scorer, n + 1)
         == Issued(matches, feed, scorer, n) + [UpdateFor(matches[n], feed, scorer).value]
  {
  }

  /** The loop stops at `i` exactly when `i` is the completed count. */
  lemma CompletedAt(matches: seq<Fixture>, feed: EloFeed, scorer: Scorer, i: nat)
    requires i <= |matches|
    requires forall k :: 0 <= k < i ==> UpdateFor(matches[k], feed, scorer).Ok?
    requires i < |matches| ==> UpdateFor(matches[i], feed, scorer).Err?
    ensures Completed(matches, feed, scorer) == i
  {
  }

  // ---------------------------------------------------------------------------
  // data/clubelo_scrapper.py

  /** `elo_dict` built row by row: a later row of the same club overwrites. */
  function EloDict(eloData: seq<EloRow>): map<string, real>
  {
    if eloData == [] then map[]
    else EloDict(eloData[..|eloData| - 1])[eloData[|eloData| - 1].club := eloData[|eloData| - 1].elo]
  }

  /** Every listed club is a key, and it maps to the Elo of the club's last
      row. */
  lemma EloDictLastWins(eloData: seq<EloRow>)
    ensures EloDict(eloData).Keys == set k | 0 <= k < |eloData| :: eloData[k].club
    ensures forall k :: (0 <= k < |eloData| && (forall j :: k < j < |eloData| ==> eloData[j].club != eloData[k].club))
                        ==> EloDict(eloData)[eloData[k].club] == eloData[k].elo
  {
    EloDictKeys(eloData);
    forall k | 0 <= k < |eloData| && (forall j :: k < j < |eloData| ==> eloData[j].club != eloData[k].club)
      ensures EloDict(eloData)[eloData[k].club] == eloData[k].elo
    {
      EloDictLast(eloData, k);
    }
  }

  lemma {:induction false} EloDictKeys(eloData: seq<EloRow>)
    ensures EloDict(eloData).Keys == set k | 0 <= k < |eloData| :: eloData[k].club
  {
    if eloData != [] {
      var init := eloData[..|eloData| - 1];
      EloDictKeys(init);
      assert forall k :: 0 <= k < |init| ==> init[k] == eloData[k];
      assert (set k | 0 <= k < |eloData| :: eloData[k].club)
        == (set k | 0 <= k < |init| :: init[k].club) + {eloData[|eloData| - 1].club};
    }
  }

  lemma {:induction false} EloDictLast(eloData: seq<EloRow>, k: nat)
    requires k < |eloData|
    requires forall j :: k < j < |eloData| ==> eloData[j].club != eloData[k].club
    ensures eloData[k].club in EloDict(eloData)
    ensures EloDict(eloData)[eloData[k].club] == eloData[k].elo
  {
    var init := eloData[..|eloData| - 1];
    if k < |init| {
      assert init[k] == eloData[k];
      forall j | k < j < |init|
        ensures init[j].club != init[k].club
      {
        assert init[j] == eloData[j];
      }
      EloDictLast(init, k);
    }
  }

  method BuildEloDict(eloData: seq<EloRow>) returns (d: map<string, real>)
    ensures d == EloDict(eloData)
  {
    d := map[];
    var i := 0;
    while i < |eloData|
      invariant 0 <= i <= |eloData|
      invariant d == EloDict(eloData[..i])
    {
      d := d[eloData[i].club := eloData[i].elo];
      assert eloData[..i + 1][..i] == eloData[..i];
      i := i + 1;
    }
    assert eloData[..i] == eloData;
  }

  /** `elo_dict.get(team, None) if team else None`: None for an unresolved
      name, the empty name, or a name missing from the dictionary. */
  function EloLookup(team: Option<string>, dict: map<string, real>): (r: Option<real>)
    ensures r.Some? <==> team.Some? && team.value != "" && team.value in dict
  {
    if team.Some? && team.value != "" && team.value in dict then Some(dict[team.value]) else None
  }

  datatype MatchRecord = MatchRecord(id: int, home: string, away: string, date: string)

  /** The parameters of one `UPDATE matches SET home_elo, away_elo WHERE id`. */
  datatype EloCells = EloCells(homeElo: Option<real>, awayElo: Option<real>, id: int)

  /** The candidate names: the match table's own home and away names. */
  ghost predicate NamesOf(names: seq<string>, matches: seq<MatchRecord>)
  {
    forall x :: x in names <==> exists k :: 0 <= k < |matches| && (x == matches[k].home || x == matches[k].away)
  }

  /** The UPDATE for one match. The candidates are the match table's own
      names, so they are never empty and `extractOne` never fails here. A
      value written is the Elo of some row of that day's table. */
  function CellsFor(m: MatchRecord, names: seq<string>, feed: EloFeed, scorer: Scorer): (r: EloCells)
    requires m.home in names
    ensures r.id == m.id
    ensures r.homeElo.Some? ==> exists row :: row in feed(m.date) && row.elo == r.homeElo.value
    ensures r.awayElo.Some? ==> exists row :: row in feed(m.date) && row.elo == r.awayElo.value
  {
    var dict := EloDict(feed(m.date));
    EloDictValues(feed(m.date));
    var home := FuzzyMatch(scorer, m.home, names).value;
    var away := FuzzyMatch(scorer, m.away, names).value;
    EloCells(EloLookup(home, dict), EloLookup(away, dict), m.id)
  }

  lemma {:induction false} EloDictValues(eloData: seq<EloRow>)
    ensures forall c :: c in EloDict(eloData) ==> exists row :: row in eloData && row.elo == EloDict(eloData)[c]
  {
    if eloData != [] {
      var init := eloData[..|eloData| - 1];
      EloDictValues(init);
      forall c | c in EloDict(eloData)
        ensures exists row :: row in eloData && row.elo == EloDict(eloData)[c]
      {
        if c == eloData[|eloData| - 1].club {
          assert eloData[|eloData| - 1] in eloData;
        } else {
          assert c in EloDict(init) && EloDict(eloData)[c] == EloDict(init)[c];
          var row :| row in init && row.elo == EloDict(init)[c];
          assert row in eloData;
        }
      }
    }
  }

  /** `update_database`: one UPDATE per match row, in order, setting both
      Elo columns for that row's id; then one commit. */
  method UpdateDatabase(matches: seq<MatchRecord>, names: seq<string>, feed: EloFeed, scorer: Scorer, table: UpdateLog<EloCells>)
    requires NamesOf(names, matches)
    modifies table
    ensures |table.updates| == |old(table.updates)| + |matches|
    ensures table.updates[..|old(table.updates)|] == old(table.updates)
    ensures forall k :: 0 <= k < |matches| ==>
      matches[k].home in names && table.updates[|old(table.updates)| + k] == CellsFor(matches[k], names, feed, scorer)
    ensures table.committed
  {
    var i := 0;
    while i < |matches|
      invariant 0 <= i <= |matches|
      invariant |table.updates| == |old(table.updates)| + i
      invariant table.updates[..|old(table.updates)|] == old(table.updates)
      invariant forall k :: 0 <= k < i ==>
        matches[k].home in names && table.updates[|old(table.updates)| + k] == CellsFor(matches[k], names, feed, scorer)
    {
      var m := matches[i];
      assert m.home in names;
      var eloData := feed(m.date);
      var eloDict := BuildEloDict(eloData);
      var homeTeam := FuzzyMatch(scorer, m.home, names);
      var awayTeam := FuzzyMatch(scorer, m.away, names);
      var homeElo := EloLookup(homeTeam.value, eloDict);
      var awayElo := EloLookup(awayTeam.value, eloDict);
      table.Update(EloCells(homeElo, awayElo, m.id));
      i := i + 1;
    }
    table.Commit();
  }
}
