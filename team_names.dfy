/** Reconciling a team name from one source with the names of another:
    `match_team_name` of service/spi_matcher.py and
    service/scrappers/clubelo_scrapper.py (override table first, then the
    fuzzy best match), and the override-free variant of
    data/clubelo_scrapper.py. */
module TeamNames {
  import opened Common

  /** The fuzzy scorer `process.extractOne(name, candidates)`: the best
      candidate and its score. Its internals are not part of this model. */
  type Scorer = (string, seq<string>) -> (string, int)

  /** What the model assumes of the scorer: on a non-empty candidate list it
      returns one of the candidates. */
  ghost predicate ScorerSound(scorer: Scorer)
  {
    forall name, candidates :: candidates != [] ==> scorer(name, candidates).0 in candidates
  }

  /** A fuzzy match is accepted only when its score is strictly above this. */
  const Threshold := 80

  /** `special_matches` of service/spi_matcher.py. */
  const SpiOverrides: map<string, string> := map[
    "Saint-\U{00C9}tienne" := "St Etienne",
    "K\U{00F6}ln" := "FC Cologne",
    "Hertha BSC" := "Hertha Berlin"]

  /** `SPECIAL_MATCHES` of service/scrappers/clubelo_scrapper.py. */
  const EloOverrides: map<string, string> := map[
    "Arminia" := "Bielefeld",
    "Athletic Club" := "Bilbao",
    "Atl\U{00E9}tico Madrid" := "Atletico",
    "Greuther F\U{00FC}rth" := "Fuerth",
    "K\U{00F6}ln" := "Koeln",
    "Manchester Utd" := "Man United"]

  /** The override-free `match_team_name`. On an empty candidate list
      `extractOne` returns None, and unpacking it raises TypeError. */
  function FuzzyMatch(scorer: Scorer, name: string, candidates: seq<string>): (r: Result<Option<string>>)
    ensures r.Err? <==> candidates == []
    ensures r.Err? ==> r.error == TypeError
    ensures r.Ok? ==> (r.value.Some? <==> scorer(name, candidates).1 > Threshold)
    ensures r.Ok? && r.value.Some? ==> r.value.value == scorer(name, candidates).0
    ensures ScorerSound(scorer) && r.Ok? && r.value.Some? ==> r.value.value in candidates
  {
    if candidates == [] then Err(TypeError)
    else
      var (best, score) := scorer(name, candidates);
      if score > Threshold then Ok(Some(best)) else Ok(None)
  }

  /** `match_team_name` with an override table: a name that is a key of the
      table resolves to its value whatever the candidates (even none). */
  function MatchTeamName(overrides: map<string, string>, scorer: Scorer, name: string, candidates: seq<string>)
    : (r: Result<Option<string>>)
    ensures name in overrides ==> r == Ok(Some(overrides[name]))
    ensures name !in overrides ==> r == FuzzyMatch(scorer, name, candidates)
    ensures r.Err? <==> name !in overrides && candidates == []
    ensures ScorerSound(scorer) && r.Ok? && r.value.Some? ==>
      r.value.value in candidates || (name in overrides && r.value.value == overrides[name])
  {
    if name in overrides then Ok(Some(overrides[name])) else FuzzyMatch(scorer, name, candidates)
  }

  /** The two override tables disagree on "Köln": the SPI data calls the
      club "FC Cologne", the Elo data "Koeln". */
  lemma KolnOverridesDiffer(scorer: Scorer, candidates: seq<string>)
    ensures MatchTeamName(SpiOverrides, scorer, "K\U{00F6}ln", candidates) == Ok(Some("FC Cologne"))
    ensures MatchTeamName(EloOverrides, scorer, "K\U{00F6}ln", candidates) == Ok(Some("Koeln"))
  {
    assert "K\U{00F6}ln" in SpiOverrides;
    assert "K\U{00F6}ln" in EloOverrides;
  }
}
