# football-scores-prophet in Dafny

A Dafny model of the data-preparation core of football-scores-prophet, a
pipeline that collects football fixtures and results and turns them into
per-match features for a score predictor. The model covers:

- **MatchHistory** (`service/data_organizer.py`, `agg_prev_games`): the
  rolling accumulator. It walks the match table in order and keeps a history
  per team and a head-to-head history per ordered pair. For each match it
  emits averages (overall over the last 50, form and head-to-head over the
  last 5, matches played, points per match) before it appends that match's
  own result.
- **PlayerRatings** (`service/data_organizer.py`): the rating lookup
  `find_player`, `calculate_avg_score` with its in-place three-slot
  statistics array, `count_star_players`, the "Players Found %" ratio, and
  the season suffix used to pick a ratings file.
- **TeamNames** (`service/spi_matcher.py`,
  `service/scrappers/clubelo_scrapper.py`, `data/clubelo_scrapper.py`):
  team-name reconciliation. An override table is consulted first; otherwise
  the fuzzy best match counts only when its score is above 80.
- **SpiJoin** (`service/spi_matcher.py`): the join of fixture rows with SPI
  forecast rows, done in place on the fixture array.
- **ClubElo**: the Elo lookups and per-match update loops of both Elo
  scrapers, `service/scrappers/clubelo_scrapper.py` and
  `data/clubelo_scrapper.py`. The database is an update log object.
- **FbrefDates** and **Fbref** (`service/scrappers/fbref_scraper.py`,
  `data/fbref_scraper.py`): fixture-table arrangement with the 1/0/-1 score
  label, fixture-link collection, `strptime`/`strftime` date conversion,
  and the assignment of links to fixture rows. That assignment consumes a
  shared link list in place.
- **FifaCrawl** (`data/fifa_scraper.py`): the rating-page crawl, with its
  `done` flag, `ids_map` counter, growing table and page offset.
- **Common** and **Strings**: the Python semantics the core relies on.
  This covers `Result` for the exceptions the code lets escape,
  `str.split()`, `str.split(sep)`, `'-'.join`, `str.lower`, substring `in`,
  and pandas `unique` (first-seen order).

Each imperative routine is a Dafny `method` proved against a specification
function. The properties the code promises are lemmas about those
functions.

## Model

| member | source | states |
|---|---|---|
| MatchHistory.Points | service/data_organizer.py:175-181 | (3,0) exactly when the home side scored more, (0,3) exactly when fewer, (1,1) exactly on a draw |
| MatchHistory.PointsTotalAndExclusive | service/data_organizer.py:175-181 | the result is always one of the three outcomes; swapping the sides swaps the points; a match hands out 3 points, or 2 on a draw |
| MatchHistory.XScore | service/data_organizer.py:184-190 | 1 exactly when home xG is larger, -1 exactly when smaller, else 0 |
| MatchHistory.LastN | service/data_organizer.py:205 | `lst[-n:]` is the suffix of length min(n, len), and the whole list when n is 0 |
| MatchHistory.CalculateAvg | service/data_organizer.py:201-205 | 0 for an empty list; otherwise the mean of the last-n suffix, which is non-negative |
| MatchHistory.AvgAtMost | service/data_organizer.py:201-205 | an average of values that are all at most hi is between 0 and hi |
| MatchHistory.PointsPerMatch | service/data_organizer.py:257-267 | Points/Match is 0 for no earlier matches, otherwise the uncapped mean of all points |
| MatchHistory.PointsPerMatchAgreesWithAvg | service/data_organizer.py:245-267 | with at most n matches, Points/Match equals the capped average |
| MatchHistory.PointsPerMatchDiffersAfterFifty | service/data_organizer.py:245-267 | with 51 matches, Points/Match and the 50-match Avg Points differ |
| MatchHistory.Accumulate | service/data_organizer.py:197-307 | the loop (emit from the histories, then append the row's results) returns exactly AggSpec: KeyError if a head-to-head key is missing, else row i's features over rows 0..i-1 |
| MatchHistory.AggPrevGames | service/data_organizer.py:171-307 | the accumulator with the head-to-head store seeded with Home values x Away values, as written |
| MatchHistory.AggPrevGamesAllPairs | service/data_organizer.py:197-307 | the accumulator with every ordered pair of teams seeded; it never fails and emits one feature row per match |
| MatchHistory.AllPairsNeverFail | service/data_organizer.py:208-209 | seeding every ordered pair of teams makes every lookup succeed |
| MatchHistory.SourceSeedingFailsIff | service/data_organizer.py:208-209 | the source's seeding raises KeyError exactly when some match's away team never plays at home, or its home team never plays away |
| MatchHistory.FeaturesUseOnlyEarlierRows | service/data_organizer.py:245-307 | a row's emitted features depend only on the rows before it and on its two team names, not on its own result; FeaturesAt reads only that prefix, and that the loop emits FeaturesAt is Accumulate's contract |
| MatchHistory.TeamSeriesLength | service/data_organizer.py:292-298 | a team's three lists always have equal length, the number of earlier matches in which it appeared |
| MatchHistory.MatchesPlayedIsEarlierAppearances | service/data_organizer.py:254-255 | Matches Played is the number of earlier rows naming the team as home or away |
| MatchHistory.PairSeriesIsMeetings | service/data_organizer.py:301-307 | for X different from Y, the (X,Y) history holds X's points and goals from every earlier meeting with Y, whoever was at home |
| MatchHistory.MeetingsSymmetric | service/data_organizer.py:301-307 | the meetings of X with Y are the meetings of Y with X |
| MatchHistory.SeriesOfLength | service/data_organizer.py:301-307 | a history built from k meetings has three lists of length k |
| MatchHistory.PairsGrowTogether | service/data_organizer.py:301-307 | (X,Y) and (Y,X) always have the same length: the number of meetings |
| MatchHistory.OtherPairsUnchanged | service/data_organizer.py:301-307 | a match touches no key other than (home,away) and (away,home) |
| MatchHistory.TeamSeriesIsInvolving | service/data_organizer.py:292-298 | a team's history holds its own points and goals from each earlier match it played, in order |
| MatchHistory.PointsAtMostThree | service/data_organizer.py:292-307 | every recorded point value is at most 3 |
| MatchHistory.PointAveragesInRange | service/data_organizer.py:245-281 | every emitted points feature (average, form, head-to-head, per match) lies in [0, 3] |
| MatchHistory.ScenarioRaisesAsWritten | service/data_organizer.py:208-209 | a three-match season on which the source's seeding raises KeyError |
| MatchHistory.ScenarioWithAllPairs | service/data_organizer.py:197-307 | the same season with every pair seeded completes, with the expected features for the third match |
| PlayerRatings.FindPlayer | service/data_organizer.py:114-115 | the matches are a subsequence of the table, in table order |
| PlayerRatings.FindPlayerMembers | service/data_organizer.py:114-115 | a row is kept exactly when its lower-cased name contains every lower-cased whitespace token of the query |
| PlayerRatings.FirstFoundIsFirstMatch | service/data_organizer.py:92-93 | the first found row is the first matching row of the table |
| PlayerRatings.Resolve | service/data_organizer.py:88-97 | no match gives 70 and the not-found slot; several give the first row's rating and the ambiguous slot; exactly one gives its rating and the exact slot |
| PlayerRatings.OneSlotPerPlayer | service/data_organizer.py:89-97 | the three slot counts add up to the number of players |
| PlayerRatings.ResolvedRatingBounds | service/data_organizer.py:88-97 | a resolved rating lies within any range containing 70 and all table ratings |
| PlayerRatings.TotalRatingBounds | service/data_organizer.py:85-98 | the total lies between len·lo and len·hi for such a range |
| PlayerRatings.CalculateAvgScore | service/data_organizer.py:84-111 | each slot grows by its outcome count; the result is total/len(players), and ZeroDivisionError for no players |
| PlayerRatings.CountStarPlayers | service/data_organizer.py:68-81 | the count is the number of players whose resolved rating is at least 85 |
| PlayerRatings.StarsAreFound | service/data_organizer.py:68-81 | an unmatched player (rating 70) is never a star |
| PlayerRatings.FoundRatio | service/data_organizer.py:51-52 | ZeroDivisionError exactly when the three counts sum to 0; otherwise in [0,1] for non-negative counts |
| PlayerRatings.RatioBounds | service/data_organizer.py:51-52 | a part of a non-zero total divided by the total is in [0,1] |
| PlayerRatings.MatchPlayerFeatures | service/data_organizer.py:21-53 | one match's four player columns and Players Found %, from counts reset to zero; an error exactly when a side has no players |
| PlayerRatings.SeasonSuffix | service/data_organizer.py:4-6 | the suffix is two characters |
| PlayerRatings.SeasonSuffixOfSeason | service/data_organizer.py:4-6 | for "YYYY-ZZZZ…", the suffix is the third and fourth characters of the second year |
| PlayerRatings.SeasonSuffixNeedsDash | service/data_organizer.py:4-6 | a season without '-' raises IndexError |
| TeamNames.FuzzyMatch | data/clubelo_scrapper.py:20-24 | TypeError exactly for no candidates; the best candidate exactly when its score is above 80, else None; a sound scorer's answer is a candidate |
| TeamNames.MatchTeamName | service/spi_matcher.py:11-17 | an override key resolves to its value whatever the candidates; otherwise the fuzzy match; it fails only without an override and without candidates |
| TeamNames.KolnOverridesDiffer | service/scrappers/clubelo_scrapper.py:11-18 | the two override tables resolve "Köln" differently |
| Common.Unique | service/spi_matcher.py:41 | pandas `unique`: the same members as the input, without duplicates |
| Common.UniqueFirstSeenOrder | service/spi_matcher.py:41 | `unique` keeps first-seen order |
| SpiJoin.FirstJoin | service/spi_matcher.py:51-60 | None exactly when no SPI row has the date and (team1 = home or team2 = away); otherwise the columns of a joining row |
| SpiJoin.FirstJoinIsFirstHit | service/spi_matcher.py:54-60 | the columns copied are those of the first joining row |
| SpiJoin.Filled | service/spi_matcher.py:44-64 | date, teams and every other non-SPI column of the row are kept |
| SpiJoin.FilledFromTable | service/spi_matcher.py:37-62 | a row ends with NA or with the columns of an SPI row played on its date |
| SpiJoin.EmptyTableFillsNA | service/spi_matcher.py:37-38 | with no SPI rows every row keeps its NA columns |
| SpiJoin.ExtendWithSpi | service/spi_matcher.py:20-64 | in place, each row becomes its filled row; TypeError escapes exactly when some name cannot be resolved, which needs an empty SPI table |
| SpiJoin.FillStep | service/spi_matcher.py:44-60 | once both names resolve, the row written back is the filled row |
| SpiJoin.EmptyCandidates | service/spi_matcher.py:41 | the candidate list is empty only for an empty SPI table |
| ClubElo.Clubs | service/scrappers/clubelo_scrapper.py:69 | the candidate list is the Club column, row for row |
| ClubElo.EloValue | service/scrappers/clubelo_scrapper.py:41-45 | 0 when no row's club is the resolved name (also when unresolved); a non-zero value is the Elo of a row with that club |
| ClubElo.EloValueIsFirstRow | service/scrappers/clubelo_scrapper.py:41-45 | the value is the Elo of the first row with that club |
| ClubElo.UpdateFor | service/scrappers/clubelo_scrapper.py:27-49 | an update carries its match's game id; it fails only when that date's Elo data is empty |
| ClubElo.Completed | service/scrappers/clubelo_scrapper.py:26-52 | every match before the count succeeds and the one at the count fails |
| ClubElo.ScrapClubEloToDatabase | service/scrappers/clubelo_scrapper.py:22-54 | one update per match in order, up to the first failure; commit exactly when all matches succeed |
| ClubElo.EloDict | data/clubelo_scrapper.py:56-58 | the dictionary built from the Elo rows |
| ClubElo.EloDictLastWins | data/clubelo_scrapper.py:56-58 | its keys are the clubs; a club listed several times keeps the Elo of its last row |
| ClubElo.BuildEloDict | data/clubelo_scrapper.py:56-58 | the loop builds exactly EloDict |
| ClubElo.EloDictValues | data/clubelo_scrapper.py:56-58 | every value comes from some row |
| ClubElo.EloLookup | data/clubelo_scrapper.py:64-65 | a value exactly when the name resolved to a non-empty name that is a key |
| ClubElo.CellsFor | data/clubelo_scrapper.py:46-70 | an UPDATE for the match's id whose Elo values come from that date's rows |
| ClubElo.UpdateDatabase | data/clubelo_scrapper.py:27-77 | exactly one UPDATE per match, in order, each as CellsFor; then commit |
| FbrefDates.ParseMonthFrom | service/scrappers/fbref_scraper.py:148 | `%B`: the month whose name equals the text up to case, or None when none does |
| FbrefDates.ParseDay | service/scrappers/fbref_scraper.py:148 | `%d`: a day number in 1..31 |
| FbrefDates.ParseYear | service/scrappers/fbref_scraper.py:148 | `%Y`: a year below 10000 |
| FbrefDates.ParseDate | service/scrappers/fbref_scraper.py:148 | a parsed date is a valid calendar date; any failure is ValueError |
| FbrefDates.Pad2 | service/scrappers/fbref_scraper.py:149 | two digits |
| FbrefDates.Pad4 | service/scrappers/fbref_scraper.py:149 | four digits |
| FbrefDates.IsoDate | service/scrappers/fbref_scraper.py:149 | ten characters with '-' at positions 4 and 7 |
| FbrefDates.ConvertDateFormat | service/scrappers/fbref_scraper.py:147-150 | ValueError exactly when parsing fails; otherwise the "YYYY-MM-DD" text of the parsed date |
| FbrefDates.SlugDateParts | service/scrappers/fbref_scraper.py:69-71 | a link's date text splits on '-' into month name, day and year, and holds no '/' |
| FbrefDates.ConvertSlugDate | service/scrappers/fbref_scraper.py:147-150 | a valid date written as a link writes it (day padded or not) parses back to itself and converts to its ISO text |
| FbrefDates.IsoDateInjective | service/scrappers/fbref_scraper.py:73 | equal ISO texts mean equal dates, so comparing the text compares dates |
| FbrefDates.ParseMonthFinds | service/scrappers/fbref_scraper.py:148 | each month name parses to its number |
| FbrefDates.MonthKeysDistinct | service/scrappers/fbref_scraper.py:148 | no two month names coincide |
| FbrefDates.Pad4Digits | service/scrappers/fbref_scraper.py:148-149 | a padded year parses back to itself |
| Fbref.ScoreLabel | service/scrappers/fbref_scraper.py:92-99 | 1, 0 and -1 exactly for home goals >, = and < away goals |
| Fbref.DropNa | service/scrappers/fbref_scraper.py:85 | the kept rows are exactly the complete rows of the table, and each is complete |
| Fbref.DropNaSingle | service/scrappers/fbref_scraper.py:85 | a single row is kept exactly when it is complete |
| Fbref.DropNaConcat | service/scrappers/fbref_scraper.py:85 | dropping works piecewise over any split of the table, so kept rows keep their order and their repetitions |
| Fbref.ArrangeMatchesData | data/fbref_scraper.py:59-77 | row k is the k-th complete source row arranged with the k-th drawn id, one row per complete row; Game ID in [10^9, 10^10-1]; League and Season are the arguments on every row; Score is the label of the goals |
| Fbref.WantedLinks | service/scrappers/fbref_scraper.py:113-118 | the wanted links are exactly the site prefix plus each href containing '/en/matches/' and the league |
| Fbref.GetMatchLinks | data/fbref_scraper.py:80-95 | the loop returns the wanted links without duplicates, in first-seen order |
| Fbref.PyIndex | service/scrappers/fbref_scraper.py:71-72 | a Python slice bound clamps into 0..len |
| Fbref.LinkKeyMeaning | service/scrappers/fbref_scraper.py:69-72 | a link's key fails, with ValueError, exactly when its date words do not parse as a date; otherwise it is that date in ISO form and the league words |
| Fbref.LinkKeyOfFixtureLink | service/scrappers/fbref_scraper.py:69-72 | a link "…/teams-Month-D-YYYY-League" yields that date in ISO form and that league |
| Fbref.SegmentFields | service/scrappers/fbref_scraper.py:69-72 | the slices [-L-3:-L] and [-L:] of the dashed words give back the date text and the league |
| Fbref.DashedFields | service/scrappers/fbref_scraper.py:69 | splitting a joined segment on '-' splits each part |
| Fbref.SliceAround | service/scrappers/fbref_scraper.py:71-72 | the two negative slices pick the three date words and the L league words |
| Fbref.SegmentFree | service/scrappers/fbref_scraper.py:69 | a segment built from '/'-free parts has no '/' |
| Fbref.LinkPool.Remove | service/scrappers/fbref_scraper.py:79 | `list.remove` drops the first occurrence |
| Fbref.RemoveFirst | service/scrappers/fbref_scraper.py:79 | the result holds one copy fewer of the removed link, and nothing else changes |
| Fbref.FindLinkFrom | service/scrappers/fbref_scraper.py:68-75 | a found index lies in the list and its link names the row's date and league; every error is ValueError |
| Fbref.FindLinkFromIsFirst | service/scrappers/fbref_scraper.py:68-75 | the found link is the first that matches, every earlier link converting and naming another fixture; None means every link was passed over; an error comes from an unconvertible link met before any match |
| Fbref.FindLinkFromIsFindKey | service/scrappers/fbref_scraper.py:68-75 | scanning the links is scanning their keys in list order |
| Fbref.FindKeyIsFirst | service/scrappers/fbref_scraper.py:68-75 | a found key comes after keys that all convert and name another fixture |
| Fbref.FindKeyNone | service/scrappers/fbref_scraper.py:68-81 | no match means every key converts and names another fixture |
| Fbref.FindKeyErr | service/scrappers/fbref_scraper.py:68-72 | an error comes from a key that does not convert, every key before it converting and naming another fixture |
| Fbref.FindLink | service/scrappers/fbref_scraper.py:68-75 | the inner loop returns exactly FindLinkFrom |
| Fbref.FindStops | service/scrappers/fbref_scraper.py:68-75 | one step of the scan: stop with an error, stop at a match, or go on |
| Fbref.AssignFrom | service/scrappers/fbref_scraper.py:65-81 | the row loop keeps the row count |
| Fbref.AssignConservesLinks | service/scrappers/fbref_scraper.py:65-81 | the links held by the rows plus those left in the list are the links at the start: none lost, none given twice |
| Fbref.LinkedUpdate | service/scrappers/fbref_scraper.py:78 | giving a link to a row without one adds exactly that link |
| Fbref.AddMatchLinks | service/scrappers/fbref_scraper.py:57-81 | ValueError with nothing changed for more rows than links; row i gets link i for equal counts; otherwise rows and list end as AssignFrom describes, whose steps AssignTakes, AssignSkips and AssignStops state |
| Fbref.AssignTakes | service/scrappers/fbref_scraper.py:77-79 | a row for which the scan finds index j takes links[j] (the first match, by FindLinkFromIsFirst) and that link leaves the list |
| Fbref.AssignSkips | service/scrappers/fbref_scraper.py:80-81 | a row for which the scan finds nothing (every link passed over, by FindLinkFromIsFirst) is left unchanged and no row is deleted |
| Fbref.AssignStops | service/scrappers/fbref_scraper.py:71 | a scan error (an unconvertible link met before any match, by FindLinkFromIsFirst) ends the loop with ValueError |
| Fbref.AssignDone | service/scrappers/fbref_scraper.py:65 | after the last row, nothing more changes |
| Fbref.AssignLinksPositionally | data/fbref_scraper.py:52 | ValueError exactly when the counts differ; otherwise row i gets link i and keeps every other column |
| Strings.Lower | service/data_organizer.py:115 | `str.lower` maps each character |
| Strings.TokensSound | service/data_organizer.py:115 | `split()` gives non-empty words without whitespace which, concatenated, are the text without whitespace |
| Strings.JoinSplitOn | service/scrappers/fbref_scraper.py:69-72 | joining the parts of a split gives back the text |
| Strings.SplitOnJoin | service/scrappers/fbref_scraper.py:69-72 | splitting a join of separator-free parts gives back the parts |
| Strings.SplitOnConcat | service/scrappers/fbref_scraper.py:69 | splitting at a separator splits each side |
| Strings.LastPartAfterSeparator | service/scrappers/fbref_scraper.py:69 | `split('/')[-1]` is the text after the last '/' |
| FifaCrawl.Crawler.constructor | data/fifa_scraper.py:56-61 | `init`: not done, an empty table, an empty `ids_map`, offset 0 |
| FifaCrawl.InitGood | data/fifa_scraper.py:56-61 | the initial state satisfies the crawl invariant |
| FifaCrawl.ScanFrom | data/fifa_scraper.py:28-45 | scanning a page never moves the offset |
| FifaCrawl.PageStep | data/fifa_scraper.py:25-50 | the offset moves on by exactly 1 after a page scanned to its end, and not at all when the page set `done` |
| FifaCrawl.VisitCounts | data/fifa_scraper.py:32-35 | a row adds exactly 1 to its id's count and leaves every other id's count alone |
| FifaCrawl.VisitTable | data/fifa_scraper.py:41-45 | after a row the table still holds min(count, 2) copies of each id |
| FifaCrawl.VisitKeepsGood | data/fifa_scraper.py:32-45 | a row keeps the crawl invariant; `done` is set exactly on an id's 11th sighting |
| FifaCrawl.ScanKeepsGood | data/fifa_scraper.py:28-45 | a page keeps the crawl invariant |
| FifaCrawl.ScanCounts | data/fifa_scraper.py:28-45 | a page scanned to its end adds each id's sightings on the page to its count |
| FifaCrawl.ScanStops | data/fifa_scraper.py:37-39 | a page that sets `done` stops at a row whose id is then seen for the 11th time |
| FifaCrawl.CrawlKeepsGood | data/fifa_scraper.py:19-50 | the whole crawl keeps the invariant |
| FifaCrawl.CrawlEnds | data/fifa_scraper.py:25-50 | the crawl stops only when done, or after the page bound with the offset moved on once per page |
| FifaCrawl.CopiesAppend | data/fifa_scraper.py:45 | appending a row adds one copy of its id |
| FifaCrawl.Crawler.ScanPage | data/fifa_scraper.py:28-45 | the row loop, with its early break, computes ScanFrom |
| FifaCrawl.Crawler.Crawl | data/fifa_scraper.py:25-51 | the page loop requests offset·60, scans, and advances only unfinished pages: it computes CrawlFrom |
| FifaCrawl.ScrapEdition | data/fifa_scraper.py:21-53 | one edition's table is the crawl's table: no id in it more than twice, and every id seen at least once |
| FifaCrawl.ScrapFifa | data/fifa_scraper.py:19-53 | one table per edition, in the order of the identifier table, each crawled with its own identifier |

## Left out

- HTTP, HTML parsing, CSV and SQLite are outside the model: `requests`, `urllib`, `pd.read_html`, BeautifulSoup, `get_players_data`, `create_player_df`, `fetch_elo_ratings`, `read_sql_query`, `to_csv`, `export_data`, `match_prev_league` and `load_premier_league_data`. Fetched data is a function parameter: the Elo rows per date, and the player rows per page offset.
- `time.sleep`, `print` and `requests_cache` have no effect on the computed values.
- `add_elo_columns_if_not_exists` and the ALTER TABLE statements: schema changes only.
- `get_team_player_data` (a pandas outer merge) is outside the model; MatchPlayerFeatures takes the two player-name lists directly.
- `round(…, 2)` and `df.round(2)`: averages and ratios are exact reals.
- Goals are natural numbers. The source splits the score text on '–' and compares the two halves as text; that string comparison is not modelled.
- `random.randint` Game IDs: the draws are a parameter constrained to the source's range.
- The fuzzy scorer (`process.extractOne`) is an uninterpreted function parameter. ScorerSound states the one assumption used: on a non-empty list it returns a candidate.
- `str.lower` is modelled for ASCII letters only; other characters are left as they are.
- Python's set iteration order (the candidate set in `data/clubelo_scrapper.py:44`) is a sequence parameter holding the same names.
- A missing `href` attribute is the empty string, as `l.get('href', '')` gives.
- FbrefDates.IsoDate: `strftime("%Y")` writes years below 1000 without leading zeros on some platforms; the model always writes four digits.
- FifaCrawl.Crawler.Crawl: `while True` is bounded by a `maxPages` fuel argument, so a crawl whose pages never repeat an id eleven times is followed only for that many pages.
- PlayerRatings.CalculateAvgScore: the `statistics` list is an array of length 3, which every caller passes.
- PlayerRatings.MatchPlayerFeatures: the loop over match links and the `matches.loc` writes are outside the model; the member computes one match's columns.
- ClubElo.UpdateDatabase: the candidate names are passed in and required to be the match table's home and away names.

## Findings

| source | as written | input that shows it | evidently intended | confidence | as-written member | corrected member |
|---|---|---|---|---|---|---|
| service/data_organizer.py:208-209 | `head_to_head_stats` is seeded only with (Home value, Away value) pairs, but the loop also reads `(away_team, home_team)` | the rows A–B 2-1, A–C 1-1, B–A 0-3: C never appears in the Home column, so the second row's lookup of (C, A) raises KeyError | every ordered pair of teams that can meet is seeded, so each lookup finds an empty history | not executed | MatchHistory.AggPrevGames, MatchHistory.ScenarioRaisesAsWritten | MatchHistory.AggPrevGamesAllPairs, MatchHistory.ScenarioWithAllPairs |
