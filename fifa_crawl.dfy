/** `scrap_fifa` of data/fifa_scraper.py: the rating pages of one game
    edition are read 60 players at a time, sorted by rating, until some
    player has been seen more than ten times (the site then serves the same
    page over and over). Each player id is written at most twice. */
module FifaCrawl {
  import opened Common

  /** `COLUMN`: the columns of the ratings table. */
  const Columns: seq<string> := ["ID", "Name", "Age", "Position", "Overall", "Potential", "Team"]

  /** `FIFA_IDENTIFIERS`: edition name and the site's roster identifier. */
  const FifaIdentifiers: seq<(string, string)> := [
    ("fifa_23", "230054"), ("fifa_22", "220069"), ("fifa_21", "210064"), ("fifa_20", "200061")]

  /** Players per page: the page with offset `o` is requested as `o * 60`. */
  const PageSize := 60

  /** A sighting beyond this count stops the crawl. */
  const StopCount := 10

  /** Sightings up to this count are written to the table. */
  const KeepCount := 2

  /** One row of the ratings table, in the order of `Columns`. */
  datatype Player = Player(id: string, name: string, age: string, position: string,
                           overall: string, potential: string, team: string)

  /** The rows of the page requested with the given offset value. The HTTP
      request and the HTML parsing are not part of this model. */
  type Fetch = nat -> seq<Player>

  /** `done`, the table, `ids_map` and `offset`. */
  datatype CrawlState = CrawlState(done: bool, table: seq<Player>, ids: map<string, nat>, offset: nat)

  /** `init`. */
  const Init := CrawlState(false, [], map[], 0)

  /** How often `id` has been seen (0 when it is not a key of `ids_map`). */
  function Seen(ids: map<string, nat>, id: string): nat
  {
    if id in ids then ids[id] else 0
  }

  /** How many rows of the table carry `id`. */
  function Copies(table: seq<Player>, id: string): nat
  {
    if table == [] then 0
    else Copies(table[..|table| - 1], id) + (if table[|table| - 1].id == id then 1 else 0)
  }

  lemma CopiesAppend(table: seq<Player>, p: Player, id: string)
    ensures Copies(table + [p], id) == Copies(table, id) + (if p.id == id then 1 else 0)
  {
    assert (table + [p])[..|table|] == table;
  }

  /** How often `id` occurs among the rows of `page` from position `i` on. */
  function Sightings(page: seq<Player>, i: nat, id: string): nat
    decreases |page| - i
  {
    if i >= |page| then 0
    else (if page[i].id == id then 1 else 0) + Sightings(page, i + 1, id)
  }

  /** One row of a page: its id's count goes up by one; past `StopCount`
      the crawl is done and the row is dropped, past `KeepCount` the row is
      dropped, otherwise it is appended. */
  function Visit(st: CrawlState, p: Player): CrawlState
  {
    var n := Seen(st.ids, p.id) + 1;
    var ids := st.ids[p.id := n];
    if n > StopCount then st.(ids := ids, done := true)
    else if n > KeepCount then st.(ids := ids)
    else st.(ids := ids, table := st.table + [p])
  }

  /** The row loop from row `i` on, leaving it at the row that sets `done`. */
  function ScanFrom(st: CrawlState, page: seq<Player>, i: nat): (r: CrawlState)
    ensures r.offset == st.offset
    decreases |page| - i
  {
    if i >= |page| then st
    else
      var st' := Visit(st, page[i]);
      if st'.done then st' else ScanFrom(st', page, i + 1)
  }

  /** One turn of the `while True` loop: the page is scanned, and only a
      page scanned to its end moves the offset on. */
  function PageStep(st: CrawlState, fetch: Fetch): (r: CrawlState)
    ensures r.offset == st.offset + (if r.done then 0 else 1)
  {
    var s := ScanFrom(st, fetch(st.offset * PageSize), 0);
    if s.done then s else s.(offset := s.offset + 1)
  }

  /** The crawl of one edition, for at most `fuel` pages. */
  function CrawlFrom(st: CrawlState, fetch: Fetch, fuel: nat): CrawlState
    decreases fuel
  {
    if st.done || fuel == 0 then st else CrawlFrom(PageStep(st, fetch), fetch, fuel - 1)
  }

  /** The table holds each id as often as it has been seen, but at most
      `KeepCount` times. */
  ghost predicate TableMatches(table: seq<Player>, ids: map<string, nat>)
  {
    forall id :: Copies(table, id) == Min(Seen(ids, id), KeepCount)
  }

  ghost predicate Bounded(ids: map<string, nat>)
  {
    forall id :: Seen(ids, id) <= StopCount
  }

  ghost predicate Stopped(ids: map<string, nat>)
  {
    exists id :: Seen(ids, id) == StopCount + 1
  }

  /** The invariant of the crawl: the table matches the counts; until the
      crawl is done no id has been seen more than `StopCount` times, and
      once it is done some id has been seen exactly `StopCount` + 1 times. */
  ghost predicate Good(st: CrawlState)
  {
    TableMatches(st.table, st.ids) && (if st.done then Stopped(st.ids) else Bounded(st.ids))
  }

  function Min(a: nat, b: nat): nat
  {
    if a < b then a else b
  }

  lemma InitGood()
    ensures Good(Init)
  {
  }

  /** A row's sighting adds exactly one to its id's count and nothing to
      any other. */
  lemma VisitCounts(st: CrawlState, p: Player, id: string)
    ensures Seen(Visit(st, p).ids, id) == Seen(st.ids, id) + (if id == p.id then 1 else 0)
  {
  }

  /** The table still matches the counts after a row. */
  lemma VisitTable(st: CrawlState, p: Player)
    requires TableMatches(st.table, st.ids)
    ensures TableMatches(Visit(st, p).table, Visit(st, p).ids)
  {
    var r := Visit(st, p);
    forall id
      ensures Copies(r.table, id) == Min(Seen(r.ids, id), KeepCount)
    {
      VisitCounts(st, p, id);
      if Seen(st.ids, p.id) + 1 <= KeepCount {
        CopiesAppend(st.table, p, id);
      }
    }
  }

  /** A row keeps the invariant; when it sets `done` it is exactly the
      (`StopCount` + 1)th sighting of its id. */
  lemma VisitKeepsGood(st: CrawlState, p: Player)
    requires Good(st) && !st.done
    ensures Good(Visit(st, p))
    ensures Visit(st, p).done ==> Seen(Visit(st, p).ids, p.id) == StopCount + 1
  {
    var r := Visit(st, p);
    VisitTable(st, p);
    VisitCounts(st, p, p.id);
    if !r.done {
      forall id
        ensures Seen(r.ids, id) <= StopCount
      {
        VisitCounts(st, p, id);
      }
    }
  }

  /** Scanning a page keeps the invariant. */
  lemma {:induction false} ScanKeepsGood(st: CrawlState, page: seq<Player>, i: nat)
    requires Good(st) && !st.done
    ensures Good(ScanFrom(st, page, i))
    decreases |page| - i
  {
    if i < |page| {
      var st' := Visit(st, page[i]);
      VisitKeepsGood(st, page[i]);
      if !st'.done {
        ScanKeepsGood(st', page, i + 1);
      }
    }
  }

  /** A page scanned to its end adds each id's sightings on the page to its
      count. */
  lemma {:induction false} ScanCounts(st: CrawlState, page: seq<Player>, i: nat, id: string)
    requires !ScanFrom(st, page, i).done
    ensures Seen(ScanFrom(st, page, i).ids, id) == Seen(st.ids, id) + Sightings(page, i, id)
    decreases |page| - i
  {
    if i < |page| {
      VisitCounts(st, page[i], id);
      ScanCounts(Visit(st, page[i]), page, i + 1, id);
    }
  }

  /** A scan that sets `done` stops at a row whose id is then seen for the
      (`StopCount` + 1)th time. */
  lemma {:induction false} ScanStops(st: CrawlState, page: seq<Player>, i: nat) returns (k: nat)
    requires Good(st) && !st.done
    requires ScanFrom(st, page, i).done
    ensures i <= k < |page| && Seen(ScanFrom(st, page, i).ids, page[k].id) == StopCount + 1
    decreases |page| - i
  {
    var st' := Visit(st, page[i]);
    VisitKeepsGood(st, page[i]);
    if st'.done {
      k := i;
    } else {
      k := ScanStops(st', page, i + 1);
    }
  }

  /** The crawl keeps the invariant whatever the pages and however many. */
  lemma {:induction false} CrawlKeepsGood(st: CrawlState, fetch: Fetch, fuel: nat)
    requires Good(st)
    ensures Good(CrawlFrom(st, fetch, fuel))
    decreases fuel
  {
    if !st.done && fuel > 0 {
      ScanKeepsGood(st, fetch(st.offset * PageSize), 0);
      CrawlKeepsGood(PageStep(st, fetch), fetch, fuel - 1);
    }
  }

  /** The crawl stops only when it is done or after exactly `fuel` pages,
      each of which moved the offset on by one. */
  lemma {:induction false} CrawlEnds(st: CrawlState, fetch: Fetch, fuel: nat)
    ensures CrawlFrom(st, fetch, fuel).done || CrawlFrom(st, fetch, fuel).offset == st.offset + fuel
    decreases fuel
  {
    if !st.done && fuel > 0 {
      var s := PageStep(st, fetch);
      if !s.done {
        CrawlEnds(s, fetch, fuel - 1);
      }
    }
  }

  /** The crawler's state, updated in place as `scrap_fifa` updates its
      local variables. */
  class Crawler {
    var done: bool
    var table: seq<Player>
    var ids: map<string, nat>
    var offset: nat

    function State(): CrawlState
      reads this
    {
      CrawlState(done, table, ids, offset)
    }

    /** `init`. */
    constructor()
      ensures State() == Init
    {
      done, table, ids, offset := false, [], map[], 0;
    }

    /** The `for player_data in players_data` loop over one page. */
    method ScanPage(page: seq<Player>)
      requires !done
      modifies this
      ensures State() == ScanFrom(old(State()), page, 0)
    {
      ghost var result := ScanFrom(State(), page, 0);
      var i := 0;
      while i < |page|
        invariant 0 <= i <= |page| && !done
        invariant ScanFrom(State(), page, i) == result
      {
        var id := page[i].id;
        var n := (if id in ids then ids[id] else 0) + 1;
        ids := ids[id := n];
        if n > StopCount {
          done := true;
          return;
        }
        if n <= KeepCount {
          table := table + [page[i]];
        }
        i := i + 1;
      }
    }

    /** The `while True` loop for one edition, bounded by `maxPages`. */
    method Crawl(fetch: Fetch, maxPages: nat)
      modifies this
      ensures State() == CrawlFrom(old(State()), fetch, maxPages)
    {
      ghost var result := CrawlFrom(State(), fetch, maxPages);
      var pages := 0;
      while !done && pages < maxPages
        invariant pages <= maxPages
        invariant CrawlFrom(State(), fetch, maxPages - pages) == result
        decreases maxPages - pages
      {
        var rows := fetch(offset * PageSize);
        ScanPage(rows);
        if !done {
          offset := offset + 1;
        }
        pages := pages + 1;
      }
    }
  }

  /** One edition of `scrap_fifa`: a fresh crawl whose table holds no id
      more than twice and holds every id the crawl saw. */
  method ScrapEdition(fetch: Fetch, maxPages: nat) returns (table: seq<Player>)
    ensures table == CrawlFrom(Init, fetch, maxPages).table
    ensures forall id :: Copies(table, id) <= KeepCount
    ensures forall id :: Seen(CrawlFrom(Init, fetch, maxPages).ids, id) > 0 ==> Copies(table, id) > 0
  {
    var crawler := new Crawler();
    crawler.Crawl(fetch, maxPages);
    table := crawler.table;
    InitGood();
    CrawlKeepsGood(Init, fetch, maxPages);
  }

  /** `scrap_fifa`: one table per edition, in the order of
      `FifaIdentifiers`; the page request carries the edition's identifier. */
  method ScrapFifa(fetch: (string, nat) -> seq<Player>, maxPages: nat) returns (tables: seq<seq<Player>>)
    ensures |tables| == |FifaIdentifiers|
    ensures forall e :: 0 <= e < |tables| ==>
      tables[e] == CrawlFrom(Init, (o: nat) => fetch(FifaIdentifiers[e].1, o), maxPages).table
  {
    tables := [];
    var e := 0;
    while e < |FifaIdentifiers|
      invariant 0 <= e <= |FifaIdentifiers| && |tables| == e
      invariant forall k :: 0 <= k < e ==>
        tables[k] == CrawlFrom(Init, (o: nat) => fetch(FifaIdentifiers[k].1, o), maxPages).table
    {
      var identifier := FifaIdentifiers[e].1;
      var t := ScrapEdition((o: nat) => fetch(identifier, o), maxPages);
      tables := tables + [t];
      e := e + 1;
    }
  }
}
