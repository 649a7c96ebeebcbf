/**
 * The dashboard's table selections: partition of the catalog by title type,
 * the All / Rated / Unrated choice, and the finished-series filter. Each is a
 * boolean mask, i.e. an order-preserving filter over the rows.
 */
module AppFunctions {
  import opened Wrappers
  import opened Seqs
  import opened Catalog

  /** Title types that the 'Non Series' selection leaves out. */
  const NonSeriesExcluded: seq<string> := ["tvSeries", "tvMiniSeries", "tvEpisode", "videoGame"]
  /** Title types of the 'Series' selection. */
  const SeriesTypes: seq<string> := ["tvSeries", "tvMiniSeries"]
  /** Title types of the 'Videogames' selection. */
  const VideogameTypes: seq<string> := ["videoGame"]

  /** `load_content_type`: the rows of one content kind, or `None` for a choice the code does not know. */
  function LoadContentType(contentChoice: string, titles: seq<Title>): (r: Option<seq<Title>>)
    ensures r.Some? <==> contentChoice in {"Non Series", "Series", "Videogames"}
    ensures r.Some? ==> IsSubsequence(r.value, titles)
    ensures contentChoice == "Non Series" ==>
      forall t :: multiset(r.value)[t] == if t.titleType !in NonSeriesExcluded then multiset(titles)[t] else 0
    ensures contentChoice == "Series" ==>
      forall t :: multiset(r.value)[t] == if t.titleType in {"tvSeries", "tvMiniSeries"} then multiset(titles)[t] else 0
    ensures contentChoice == "Videogames" ==>
      forall t :: multiset(r.value)[t] == if t.titleType == "videoGame" then multiset(titles)[t] else 0
  {
    if contentChoice == "Non Series" then
      Some(Filter(titles, (t: Title) => t.titleType !in NonSeriesExcluded))
    else if contentChoice == "Series" then
      Some(Filter(titles, (t: Title) => t.titleType in SeriesTypes))
    else if contentChoice == "Videogames" then
      Some(Filter(titles, (t: Title) => t.titleType in VideogameTypes))
    else
      None
  }

  /**
   * The three content kinds never share a row, and every row lands in exactly
   * one of them unless it is a TV episode, which lands in none.
   */
  lemma ContentKindsPartition(titles: seq<Title>, t: Title)
    requires t in titles
    ensures var inNon := t in LoadContentType("Non Series", titles).value;
            var inSeries := t in LoadContentType("Series", titles).value;
            var inGames := t in LoadContentType("Videogames", titles).value;
            (t.titleType == "tvEpisode" ==> !inNon && !inSeries && !inGames) &&
            (t.titleType != "tvEpisode" ==>
              (inNon && !inSeries && !inGames) || (!inNon && inSeries && !inGames) || (!inNon && !inSeries && inGames))
  {
    var non := LoadContentType("Non Series", titles).value;
    var series := LoadContentType("Series", titles).value;
    var games := LoadContentType("Videogames", titles).value;
    assert t in non <==> multiset(non)[t] > 0;
    assert t in series <==> multiset(series)[t] > 0;
    assert t in games <==> multiset(games)[t] > 0;
    assert multiset(titles)[t] > 0;
  }

  /** `select_content_by_show_choice`: all rows, the rated ones, the unrated ones, or `None` for another choice. */
  function SelectContentByShowChoice(content: seq<Title>, showChoice: string, userRatings: map<string, int>)
    : (r: Option<seq<Title>>)
    ensures r.Some? <==> showChoice in {"All", "Rated", "Unrated"}
    ensures showChoice == "All" ==> r == Some(content)
    ensures r.Some? ==> IsSubsequence(r.value, content)
    ensures showChoice == "Rated" ==>
      forall t :: multiset(r.value)[t] == if t.tconst in userRatings then multiset(content)[t] else 0
    ensures showChoice == "Unrated" ==>
      forall t :: multiset(r.value)[t] == if t.tconst !in userRatings then multiset(content)[t] else 0
  {
    if showChoice == "All" then SubsequenceReflexive(content); Some(content)
    else if showChoice == "Rated" then Some(Filter(content, (t: Title) => t.tconst in userRatings))
    else if showChoice == "Unrated" then Some(Filter(content, (t: Title) => t.tconst !in userRatings))
    else None
  }

  /** Rated and Unrated split the table: together they hold every row exactly once. */
  lemma RatedUnratedSplit(content: seq<Title>, userRatings: map<string, int>)
    ensures var rated := SelectContentByShowChoice(content, "Rated", userRatings).value;
            var unrated := SelectContentByShowChoice(content, "Unrated", userRatings).value;
            multiset(rated) + multiset(unrated) == multiset(content) &&
            (forall t :: t in rated ==> t !in unrated)
  {
    var rated := SelectContentByShowChoice(content, "Rated", userRatings).value;
    var unrated := SelectContentByShowChoice(content, "Unrated", userRatings).value;
    assert forall t :: (multiset(rated) + multiset(unrated))[t] == multiset(content)[t];
  }

  /** `show_finished_series`: drop rows with an unknown end year and rows ending after `currentYear`. */
  function ShowFinishedSeries(series: seq<Title>, currentYear: int): (r: seq<Title>)
    ensures IsSubsequence(r, series)
    ensures forall t :: t in r ==> t.endYear.Year? && t.endYear.year <= currentYear
    ensures forall t: Title :: t.endYear.Year? && t.endYear.year <= currentYear ==> multiset(r)[t] == multiset(series)[t]
  {
    Filter(series, (t: Title) => t.endYear.Year? && t.endYear.year <= currentYear)
  }
}
