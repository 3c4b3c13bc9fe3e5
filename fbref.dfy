/** The fixture-list part of service/scrappers/fbref_scraper.py and
    data/fbref_scraper.py: arranging the schedule table
    (`arrange_matches_data`), filtering the page's links
    (`get_match_links`) and attaching a link to every fixture
    (`add_match_links_to_match_df`, or positionally in the data copy). */
module Fbref {
  import opened Common
  import opened Strings
  import opened FbrefDates

  // ---------------------------------------------------------------------------
  // `arrange_matches_data`

  /** A row of the site's schedule table, restricted to the nine columns
      kept; None is a missing cell. The score cell is given as its two goal
      counts. */
  datatype RawRow = RawRow(
    wk: Option<string>, day: Option<string>, date: Option<string>, time: Option<string>,
    home: Option<string>, xgHome: Option<real>, away: Option<string>, xgAway: Option<real>,
    score: Option<(nat, nat)>)

  predicate Complete(r: RawRow)
  {
    r.wk.Some? && r.day.Some? && r.date.Some? && r.time.Some? && r.home.Some?
    && r.xgHome.Some? && r.away.Some? && r.xgAway.Some? && r.score.Some?
  }

  /** A fixture as the rest of the pipeline sees it. */
  datatype FixtureRow = FixtureRow(
    gameId: int, wk: string, day: string, date: string, time: string,
    home: string, xgHome: real, gHome: nat, away: string, xgAway: real, gAway: nat,
    league: string, season: string, link: Option<string>, score: int)

  /** `random.randint(10**(10-1), (10**10)-1)`. */
  const MinGameId := 1_000_000_000
  const MaxGameId := 9_999_999_999

  /** The result label: 1 for a home win, 0 for a draw, -1 for an away win. */
  function ScoreLabel(gHome: nat, gAway: nat): (r: int)
    ensures r == 1 <==> gHome > gAway
    ensures r == 0 <==> gHome == gAway
    ensures r == -1 <==> gHome < gAway
  {
    if gHome > gAway then 1 else if gHome == gAway then 0 else -1
  }

  /** `dropna()`: the complete rows, in order. */
  function DropNa(raw: seq<RawRow>): (r: seq<RawRow>)
    ensures |r| <= |raw|
    ensures forall x :: x in r <==> x in raw && Complete(x)
    ensures forall k :: 0 <= k < |r| ==> Complete(r[k])
  {
    if raw == [] then []
    else
      var rest := DropNa(raw[..|raw| - 1]);
      assert forall x :: x in raw <==> x in raw[..|raw| - 1] || x == raw[|raw| - 1];
      if Complete(raw[|raw| - 1]) then rest + [raw[|raw| - 1]] else rest
  }

  /** `dropna()` is a filter: it keeps a single row exactly when the row
      is complete, and it works piecewise, so the kept rows keep their
      order and their repetitions. */
  lemma DropNaSingle(x: RawRow)
    ensures DropNa([x]) == if Complete(x) then [x] else []
  {
    assert [x][..0] == [];
  }

  lemma {:induction false} DropNaConcat(a: seq<RawRow>, b: seq<RawRow>)
    ensures DropNa(a + b) == DropNa(a) + DropNa(b)
    decreases |b|
  {
    if b == [] {
      assert a + b == a;
    } else {
      var init := b[..|b| - 1];
      var last := b[|b| - 1];
      assert (a + b)[..|a + b| - 1] == a + init;
      assert (a + b)[|a + b| - 1] == last;
      DropNaConcat(a, init);
      var tail := if Complete(last) then [last] else [];
      assert DropNa(a + b) == DropNa(a + init) + tail;
      assert DropNa(b) == DropNa(init) + tail;
    }
  }

  function Arrange(r: RawRow, gameId: int, league: string, season: string): FixtureRow
    requires Complete(r)
  {
    FixtureRow(gameId, r.wk.value, r.day.value, r.date.value, r.time.value,
      r.home.value, r.xgHome.value, r.score.value.0, r.away.value, r.xgAway.value, r.score.value.1,
      league, season, None, ScoreLabel(r.score.value.0, r.score.value.1))
  }

  /** The arranged table: one row per complete row, in order, each with its
      drawn game id, the call's league and season, and the result label.
      `draws` are the values `randint` returns, one per kept row. */
  function ArrangeMatchesData(raw: seq<RawRow>, draws: seq<int>, league: string, season: string)
    : (r: seq<FixtureRow>)
    requires |draws| == |DropNa(raw)|
    requires forall k :: 0 <= k < |draws| ==> MinGameId <= draws[k] <= MaxGameId
    ensures |r| == |DropNa(raw)|
    ensures forall k :: 0 <= k < |r| ==>
      && MinGameId <= r[k].gameId <= MaxGameId
      && r[k].league == league && r[k].season == season
      && r[k].score == ScoreLabel(r[k].gHome, r[k].gAway)
      && r[k] == Arrange(DropNa(raw)[k], draws[k], league, season)
      && DropNa(raw)[k] in raw
  {
    var kept := DropNa(raw);
    seq(|kept|, k requires 0 <= k < |kept| => Arrange(kept[k], draws[k], league, season))
  }

  // ---------------------------------------------------------------------------
  // `get_match_links`

  const Site := "https://fbref.com"

  /** An anchor's `href`, or "" when it has none (`l.get('href', '')`). */
  function Href(anchor: Option<string>): string
  {
    if anchor.Some? then anchor.value else ""
  }

  predicate Wanted(href: string, league: string)
  {
    Contains(href, "/en/matches/") && Contains(href, league)
  }

  /** The site-prefixed hrefs of the wanted anchors, in page order,
      repetitions included. */
  function WantedLinks(anchors: seq<Option<string>>, league: string): (r: seq<string>)
    ensures forall x :: x in r <==>
      exists k :: 0 <= k < |anchors| && Wanted(Href(anchors[k]), league) && x == Site + Href(anchors[k])
  {
    if anchors == [] then []
    else
      var init := anchors[..|anchors| - 1];
      var last := Href(anchors[|anchors| - 1]);
      var rest := WantedLinks(init, league);
      assert forall k :: 0 <= k < |init| ==> init[k] == anchors[k];
      if Wanted(last, league) then rest + [Site + last] else rest
  }

  /** `get_match_links` on the page's anchors: each wanted href, prefixed
      with the site, appended unless already present. The result has no
      repetitions and keeps first-seen order (`UniqueFirstSeenOrder`). */
  method GetMatchLinks(anchors: seq<Option<string>>, league: string) returns (links: seq<string>)
    ensures links == Unique(WantedLinks(anchors, league))
    ensures forall x :: x in links <==>
      exists k :: 0 <= k < |anchors| && Wanted(Href(anchors[k]), league) && x == Site + Href(anchors[k])
    ensures forall i, j :: 0 <= i < j < |links| ==> links[i] != links[j]
  {
    links := [];
    var i := 0;
    while i < |anchors|
      invariant 0 <= i <= |anchors|
      invariant links == Unique(WantedLinks(anchors[..i], league))
    {
      var href := Href(anchors[i]);
      assert anchors[..i + 1][..i] == anchors[..i];
      if Contains(href, "/en/matches/") && Contains(href, league) {
        var link := Site + href;
        assert WantedLinks(anchors[..i + 1], league) == WantedLinks(anchors[..i], league) + [link];
        assert (WantedLinks(anchors[..i], league) + [link])[..|WantedLinks(anchors[..i], league)|]
          == WantedLinks(anchors[..i], league);
        if link !in links {
          links := links + [link];
        }
      }
      i := i + 1;
    }
    assert anchors[..i] == anchors;
  }

  // ---------------------------------------------------------------------------
  // Reading a fixture link: "…/<teams>-<Month>-<D>-<YYYY>-<League>"

  /** The index Python uses for a slice bound `i` of a sequence of length `n`. */
  function PyIndex(i: int, n: nat): (r: nat)
    ensures r <= n
  {
    if i < 0 then (if n + i < 0 then 0 else n + i) else (if i > n then n else i)
  }

  /** `s[i:j]`. */
  function PySlice<T>(s: seq<T>, i: int, j: int): seq<T>
  {
    var a, b := PyIndex(i, |s|), PyIndex(j, |s|);
    if a < b then s[a..b] else []
  }

  function LastOf<T>(s: seq<T>): T
    requires s != []
  {
    s[|s| - 1]
  }

  /** The dashed words of a link's last '/' segment. */
  function Details(link: string): seq<string>
  {
    SplitOn(LastOf(SplitOn(link, '/')), '-')
  }

  /** The date words of a link for a league of `L` dashed words: positions
      [-L-3:-L], joined back with '-'. */
  function DateText(link: string, league: string): string
  {
    var l := |SplitOn(league, '-')|;
    Join(PySlice(Details(link), -l - 3, -l), '-')
  }

  /** The league words of a link: positions [-L:], joined back with '-'. */
  function LeagueText(link: string, league: string): string
  {
    var l := |SplitOn(league, '-')|;
    Join(PySlice(Details(link), -l, |Details(link)|), '-')
  }

  /** The date and league a link names for a row of the given league; a
      date that does not convert raises ValueError. */
  function LinkKey(link: string, league: string): Result<(string, string)>
  {
    var date := ConvertDateFormat(DateText(link, league));
    if date.Err? then Err(date.error) else Ok((date.value, LeagueText(link, league)))
  }

  /** A link's key fails exactly when its date text does not parse, with
      ValueError; otherwise it is the ISO date and the league text. */
  lemma LinkKeyMeaning(link: string, league: string)
    ensures var r := LinkKey(link, league);
      && (r.Err? <==> ParseDate(DateText(link, league)).Err?)
      && (r.Err? ==> r.error == ValueError)
      && (r.Ok? ==> r.value == (IsoDate(ParseDate(DateText(link, league)).value), LeagueText(link, league)))
  {
  }

  /** A link built the way the site builds fixture links names the date
      and league it was built from. */
  lemma LinkKeyOfFixtureLink(prefix: string, teams: string, d: Date, padDay: bool, league: string)
    requires ValidDate(d)
    requires Free(teams, '/') && Free(league, '/')
    ensures LinkKey(prefix + "/" + teams + "-" + SlugDate(d, padDay) + "-" + league, league)
      == Ok((IsoDate(d), league))
  {
    var link := prefix + "/" + teams + "-" + SlugDate(d, padDay) + "-" + league;
    DetailsOfFixtureLink(prefix, teams, d, padDay, league);
    TextsOfFixtureLink(link, teams, d, padDay, league);
    ConvertSlugDate(d, padDay);
    LinkKeyOfParts(link, league, SlugDate(d, padDay), IsoDate(d));
  }

  lemma DetailsOfFixtureLink(prefix: string, teams: string, d: Date, padDay: bool, league: string)
    requires ValidDate(d)
    requires Free(teams, '/') && Free(league, '/')
    ensures Details(prefix + "/" + teams + "-" + SlugDate(d, padDay) + "-" + league)
      == SplitOn(teams + "-" + SlugDate(d, padDay) + "-" + league, '-')
  {
    var slug := SlugDate(d, padDay);
    var seg := teams + "-" + slug + "-" + league;
    var link := prefix + "/" + teams + "-" + slug + "-" + league;
    SlugDateParts(d, padDay);
    SegmentFree(teams, slug, league);
    LastPartAfterSeparator(prefix, seg, '/');
    assert link == prefix + ['/'] + seg;
  }

  lemma TextsOfFixtureLink(link: string, teams: string, d: Date, padDay: bool, league: string)
    requires ValidDate(d)
    requires Details(link) == SplitOn(teams + "-" + SlugDate(d, padDay) + "-" + league, '-')
    ensures DateText(link, league) == SlugDate(d, padDay) && LeagueText(link, league) == league
  {
    SegmentFields(teams, d, padDay, league);
  }

  lemma LinkKeyOfParts(link: string, league: string, slug: string, iso: string)
    requires DateText(link, league) == slug && LeagueText(link, league) == league
    requires ConvertDateFormat(slug) == Ok(iso)
    ensures LinkKey(link, league) == Ok((iso, league))
  {
  }

  /** The dashed fields of a link's last segment, sliced as the loop slices
      them, give back the date text and the league. */
  lemma SegmentFields(teams: string, d: Date, padDay: bool, league: string)
    requires ValidDate(d)
    ensures var details, l := SplitOn(teams + "-" + SlugDate(d, padDay) + "-" + league, '-'), |SplitOn(league, '-')|;
      Join(PySlice(details, -l - 3, -l), '-') == SlugDate(d, padDay)
      && Join(PySlice(details, -l, |details|), '-') == league
  {
    var slug := SlugDate(d, padDay);
    SlugDateParts(d, padDay);
    var t, dateParts, lg := SplitOn(teams, '-'), SplitOn(slug, '-'), SplitOn(league, '-');
    DashedFields(teams, slug, league);
    SliceAround(t, dateParts, lg);
    JoinSplitOn(slug, '-');
    JoinSplitOn(league, '-');
  }

  lemma SegmentFree(teams: string, slug: string, league: string)
    requires Free(teams, '/') && Free(slug, '/') && Free(league, '/')
    ensures Free(teams + "-" + slug + "-" + league, '/')
  {
    FreeConcat(teams, "-", '/');
    FreeConcat(teams + "-", slug, '/');
    FreeConcat(teams + "-" + slug, "-", '/');
    FreeConcat(teams + "-" + slug + "-", league, '/');
  }

  lemma DashedFields(teams: string, slug: string, league: string)
    ensures SplitOn(teams + "-" + slug + "-" + league, '-')
      == SplitOn(teams, '-') + SplitOn(slug, '-') + SplitOn(league, '-')
  {
    SplitOnConcat(teams, slug + "-" + league, '-');
    SplitOnConcat(slug, league, '-');
    assert teams + "-" + slug + "-" + league == teams + ['-'] + (slug + ['-'] + league);
  }

  lemma SliceAround(t: seq<string>, m: seq<string>, lg: seq<string>)
    requires |m| == 3 && |lg| >= 1
    ensures PySlice(t + m + lg, -|lg| - 3, -|lg|) == m
    ensures PySlice(t + m + lg, -|lg|, |t + m + lg|) == lg
  {
    var s := t + m + lg;
    assert s[|t|..|t| + 3] == m;
    assert s[|t| + 3..] == lg;
  }

  // ---------------------------------------------------------------------------
  // `add_match_links_to_match_df`

  /** The caller's `match_links` list, which the loop consumes. */
  class LinkPool {
    var links: seq<string>

    constructor(links0: seq<string>)
      ensures links == links0
    {
      links := links0;
    }

    /** `list.remove(x)`: drops the first occurrence. */
    method Remove(x: string)
      requires x in links
      modifies this
      ensures links == RemoveFirst(old(links), x)
    {
      links := RemoveFirst(links, x);
    }
  }

  function RemoveFirst(s: seq<string>, x: string): (r: seq<string>)
    ensures x in s ==> multiset(r) == multiset(s) - multiset{x}
    ensures x !in s ==> r == s
  {
    if s == [] then []
    else
      assert s == [s[0]] + s[1..];
      if s[0] == x then s[1..] else [s[0]] + RemoveFirst(s[1..], x)
  }

  predicate KeyMatches(row: FixtureRow, key: (string, string))
  {
    row.date == key.0 && row.league == key.1
  }

  /** Scanning the links from position `j`: the first whose key matches the
      row, None when none does, or the ValueError of a link whose date does
      not convert, met before any match. */
  function FindLinkFrom(row: FixtureRow, links: seq<string>, j: nat): (r: Result<Option<nat>>)
    ensures r.Ok? && r.value.Some? ==>
      j <= r.value.value < |links| && LinkKey(links[r.value.value], row.league).Ok?
      && KeyMatches(row, LinkKey(links[r.value.value], row.league).value)
    ensures r.Err? ==> r.error == ValueError
    decreases |links| - j
  {
    if j >= |links| then Ok(None)
    else
      var key := LinkKey(links[j], row.league);
      if key.Err? then Err(key.error)
      else if KeyMatches(row, key.value) then Ok(Some(j))
      else FindLinkFrom(row, links, j + 1)
  }

  /** The key of every link, in list order. */
  function Keys(links: seq<string>, league: string): (r: seq<Result<(string, string)>>)
    ensures |r| == |links|
    ensures forall m :: 0 <= m < |links| ==> r[m] == LinkKey(links[m], league)
  {
    seq(|links|, m requires 0 <= m < |links| => LinkKey(links[m], league))
  }

  /** The scan of `FindLinkFrom`, over keys already computed. */
  function FindKey(row: FixtureRow, keys: seq<Result<(string, string)>>, j: nat): (r: Result<Option<nat>>)
    ensures r.Ok? && r.value.Some? ==>
      j <= r.value.value < |keys| && keys[r.value.value].Ok? && KeyMatches(row, keys[r.value.value].value)
    ensures r.Err? ==> j < |keys|
    decreases |keys| - j
  {
    if j >= |keys| then Ok(None)
    else if keys[j].Err? then Err(keys[j].error)
    else if KeyMatches(row, keys[j].value) then Ok(Some(j))
    else FindKey(row, keys, j + 1)
  }

  /** A key that converts and names another fixture: the scan passes it. */
  predicate Passes(row: FixtureRow, key: Result<(string, string)>)
  {
    key.Ok? && !KeyMatches(row, key.value)
  }

  predicate PassedOver(row: FixtureRow, keys: seq<Result<(string, string)>>, from: nat, to: nat)
    requires to <= |keys|
  {
    forall m :: from <= m < to ==> Passes(row, keys[m])
  }

  lemma {:induction false} FindLinkFromIsFindKey(row: FixtureRow, links: seq<string>, j: nat)
    ensures FindLinkFrom(row, links, j) == FindKey(row, Keys(links, row.league), j)
    decreases |links| - j
  {
    if j < |links| {
      FindLinkFromIsFindKey(row, links, j + 1);
    }
  }

  /** The scan takes the first link that names the row's fixture, passing
      over every link before it; None means every link was passed over; an
      error comes from a link whose date does not convert, met before any
      link that names the fixture. */
  lemma FindLinkFromIsFirst(row: FixtureRow, links: seq<string>, j: nat)
    ensures var r, keys := FindLinkFrom(row, links, j), Keys(links, row.league);
      && (r.Ok? && r.value.Some? ==> j <= r.value.value < |links| && PassedOver(row, keys, j, r.value.value))
      && (r == Ok(None) ==> j <= |links| ==> PassedOver(row, keys, j, |links|))
      && (r.Err? ==> exists m :: j <= m < |links| && keys[m].Err? && PassedOver(row, keys, j, m))
  {
    var keys := Keys(links, row.league);
    FindLinkFromIsFindKey(row, links, j);
    var r := FindKey(row, keys, j);
    if r.Ok? && r.value.Some? {
      FindKeyIsFirst(row, keys, j, r.value.value);
    } else if r == Ok(None) && j <= |links| {
      FindKeyNone(row, keys, j);
    } else if r.Err? {
      var m := FindKeyErr(row, keys, j);
    }
  }

  lemma {:induction false} FindKeyIsFirst(row: FixtureRow, keys: seq<Result<(string, string)>>, j: nat, m: nat)
    requires FindKey(row, keys, j) == Ok(Some(m))
    ensures j <= m < |keys| && PassedOver(row, keys, j, m)
    decreases |keys| - j
  {
    if m > j {
      FindKeyIsFirst(row, keys, j + 1, m);
    }
  }

  lemma {:induction false} FindKeyNone(row: FixtureRow, keys: seq<Result<(string, string)>>, j: nat)
    requires j <= |keys| && FindKey(row, keys, j) == Ok(None)
    ensures PassedOver(row, keys, j, |keys|)
    decreases |keys| - j
  {
    if j < |keys| {
      FindKeyNone(row, keys, j + 1);
    }
  }

  lemma {:induction false} FindKeyErr(row: FixtureRow, keys: seq<Result<(string, string)>>, j: nat) returns (m: nat)
    requires FindKey(row, keys, j).Err?
    ensures j <= m < |keys| && keys[m].Err? && PassedOver(row, keys, j, m)
    decreases |keys| - j
  {
    if keys[j].Err? {
      m := j;
    } else {
      m := FindKeyErr(row, keys, j + 1);
    }
  }

  /** The state of the rows and of the link list, and whether a ValueError
      escaped. */
  datatype LinkRun = LinkRun(rows: seq<FixtureRow>, links: seq<string>, failed: bool)

  /** The row loop from row `i` on: a row with a matching link takes it and
      the link leaves the list; a row without one is left as it is. */
  function AssignFrom(rows: seq<FixtureRow>, links: seq<string>, i: nat): (run: LinkRun)
    ensures |run.rows| == |rows|
    decreases |rows| - i
  {
    if i >= |rows| then LinkRun(rows, links, false)
    else
      var found := FindLinkFrom(rows[i], links, 0);
      if found.Err? then LinkRun(rows, links, true)
      else if found.value.None? then AssignFrom(rows, links, i + 1)
      else
        var link := links[found.value.value];
        AssignFrom(rows[i := rows[i].(link := Some(link))], RemoveFirst(links, link), i + 1)
  }

  /** The links held by the rows. */
  function Linked(rows: seq<FixtureRow>): multiset<string>
  {
    if rows == [] then multiset{}
    else (Linked(rows[..|rows| - 1])
          + if rows[|rows| - 1].link.Some? then multiset{rows[|rows| - 1].link.value} else multiset{})
  }

  lemma {:induction false} LinkedUpdate(rows: seq<FixtureRow>, i: nat, link: string)
    requires i < |rows| && rows[i].link.None?
    ensures Linked(rows[i := rows[i].(link := Some(link))]) == Linked(rows) + multiset{link}
  {
    var rows' := rows[i := rows[i].(link := Some(link))];
    if i < |rows| - 1 {
      LinkedUpdate(rows[..|rows| - 1], i, link);
      assert rows'[..|rows'| - 1] == rows[..|rows| - 1][i := rows[i].(link := Some(link))];
    } else {
      assert rows'[..|rows'| - 1] == rows[..|rows| - 1];
    }
  }

  /** No link is lost or duplicated: every link that leaves the list is now
      held by exactly one row that had none, whether or not the loop ran to
      the end. With the de-duplicated list `get_match_links` returns, no
      link is given to two rows. */
  lemma {:induction false} AssignConservesLinks(rows: seq<FixtureRow>, links: seq<string>, i: nat)
    requires forall k :: i <= k < |rows| ==> rows[k].link.None?
    ensures Linked(AssignFrom(rows, links, i).rows) + multiset(AssignFrom(rows, links, i).links)
      == Linked(rows) + multiset(links)
    decreases |rows| - i
  {
    if i >= |rows| {
      AssignDone(rows, links, i);
    } else {
      var found := FindLinkFrom(rows[i], links, 0);
      if found.Err? {
        AssignStops(rows, links, i);
      } else if found.value.None? {
        AssignSkips(rows, links, i);
        AssignConservesLinks(rows, links, i + 1);
      } else {
        var j := found.value.value;
        AssignTakes(rows, links, i, j);
        var link := links[j];
        var rows' := rows[i := rows[i].(link := Some(link))];
        var rest := RemoveFirst(links, link);
        AssignConservesLinks(rows', rest, i + 1);
        LinkedUpdate(rows, i, link);
        TakeOne(multiset(links), multiset(rest), link);
      }
    }
  }

  lemma TakeOne(all: multiset<string>, rest: multiset<string>, x: string)
    requires x in all && rest == all - multiset{x}
    ensures rest + multiset{x} == all
  {
  }

  /** `add_match_links_to_match_df`. More rows than links raise ValueError
      before anything changes; equal counts give row i link i and leave the
      list alone; otherwise each row in turn takes the first remaining link
      naming its date and league, which leaves the list. A row without such
      a link keeps its link cell, and no row is deleted. */
  method AddMatchLinks(pool: LinkPool, rows: array<FixtureRow>) returns (r: Result<()>)
    modifies pool, rows
    ensures rows.Length > |old(pool.links)| ==>
      r == Err(ValueError) && rows[..] == old(rows[..]) && pool.links == old(pool.links)
    ensures rows.Length == |old(pool.links)| ==>
      r.Ok? && pool.links == old(pool.links)
      && forall k :: 0 <= k < rows.Length ==> rows[k] == old(rows[k]).(link := Some(old(pool.links)[k]))
    ensures rows.Length < |old(pool.links)| ==>
      var run := AssignFrom(old(rows[..]), old(pool.links), 0);
      rows[..] == run.rows && pool.links == run.links && (r.Err? <==> run.failed)
      && (r.Err? ==> r.error == ValueError)
  {
    if rows.Length > |pool.links| {
      return Err(ValueError);
    }
    if rows.Length == |pool.links| {
      forall k | 0 <= k < rows.Length {
        rows[k] := rows[k].(link := Some(pool.links[k]));
      }
      return Ok(());
    }
    ghost var run := AssignFrom(rows[..], pool.links, 0);
    var i := 0;
    while i < rows.Length
      invariant 0 <= i <= rows.Length
      invariant AssignFrom(rows[..], pool.links, i) == run
    {
      var links := pool.links;
      ghost var before := rows[..];
      var found := FindLink(rows[i], links);
      if found.Err? {
        AssignStops(before, links, i);
        return Err(found.error);
      }
      if found.value.Some? {
        var link := links[found.value.value];
        AssignTakes(before, links, i, found.value.value);
        rows[i] := rows[i].(link := Some(link));
        pool.Remove(link);
      } else {
        AssignSkips(before, links, i);
      }
      i := i + 1;
    }
    AssignDone(rows[..], pool.links, i);
    r := Ok(());
  }

  /** The inner loop of `add_match_links_to_match_df`: the first link whose
      date and league are the row's, stopping at a ValueError. */
  method FindLink(row: FixtureRow, links: seq<string>) returns (r: Result<Option<nat>>)
    ensures r == FindLinkFrom(row, links, 0)
  {
    var j := 0;
    while j < |links|
      invariant 0 <= j <= |links|
      invariant FindLinkFrom(row, links, j) == FindLinkFrom(row, links, 0)
    {
      var key := LinkKey(links[j], row.league);
      FindStops(row, links, j);
      if key.Err? {
        return Err(key.error);
      }
      if row.date == key.value.0 && row.league == key.value.1 {
        return Ok(Some(j));
      }
      j := j + 1;
    }
    return Ok(None);
  }

  /** One step of the link scan. */
  lemma FindStops(row: FixtureRow, links: seq<string>, j: nat)
    requires j < |links|
    ensures LinkKey(links[j], row.league).Err? ==> FindLinkFrom(row, links, j) == Err(ValueError)
    ensures LinkKey(links[j], row.league).Ok? && KeyMatches(row, LinkKey(links[j], row.league).value) ==>
      FindLinkFrom(row, links, j) == Ok(Some(j))
    ensures LinkKey(links[j], row.league).Ok? && !KeyMatches(row, LinkKey(links[j], row.league).value) ==>
      FindLinkFrom(row, links, j) == FindLinkFrom(row, links, j + 1)
  {
  }

  lemma AssignDone(rows: seq<FixtureRow>, links: seq<string>, i: nat)
    requires i >= |rows|
    ensures AssignFrom(rows, links, i) == LinkRun(rows, links, false)
  {
  }

  lemma AssignStops(rows: seq<FixtureRow>, links: seq<string>, i: nat)
    requires i < |rows| && FindLinkFrom(rows[i], links, 0).Err?
    ensures AssignFrom(rows, links, i) == LinkRun(rows, links, true)
  {
  }

  lemma AssignSkips(rows: seq<FixtureRow>, links: seq<string>, i: nat)
    requires i < |rows| && FindLinkFrom(rows[i], links, 0) == Ok(None)
    ensures AssignFrom(rows, links, i) == AssignFrom(rows, links, i + 1)
  {
  }

  lemma AssignTakes(rows: seq<FixtureRow>, links: seq<string>, i: nat, j: nat)
    requires i < |rows| && FindLinkFrom(rows[i], links, 0) == Ok(Some(j))
    ensures j < |links|
    ensures AssignFrom(rows, links, i)
      == AssignFrom(rows[i := rows[i].(link := Some(links[j]))], RemoveFirst(links, links[j]), i + 1)
  {
  }

  // ---------------------------------------------------------------------------
  // data/fbref_scraper.py: `matches_df['Match Link'] = match_links`

  /** Positional assignment: row i gets link i and nothing else changes;
      pandas raises ValueError when the lengths differ. */
  function AssignLinksPositionally(rows: seq<FixtureRow>, links: seq<string>): (r: Result<seq<FixtureRow>>)
    ensures r.Ok? <==> |rows| == |links|
    ensures r.Err? ==> r.error == ValueError
    ensures r.Ok? ==> |r.value| == |rows| && forall k :: 0 <= k < |rows| ==>
      r.value[k].link == Some(links[k]) && r.value[k].(link := rows[k].link) == rows[k]
  {
    if |rows| != |links| then Err(ValueError)
    else Ok(seq(|rows|, k requires 0 <= k < |rows| => rows[k].(link := Some(links[k]))))
  }
}
