# WatchNext, modelled in Dafny

WatchNext is a recommender dashboard. It joins IMDb's title catalog with the
user's own ratings, which it scrapes from their IMDb ratings pages, and ranks
the titles. For the top-ranked titles it then gathers every prequel and sequel
the user has not watched. It shows each title with its unwatched connections,
in release order, until enough unwatched titles are on screen.

This project models three parts of the program and proves properties of them:

- **The connection resolver** (`get_ordered_connections` and its helpers
  `get_num_connections` and `find_title_connections`). It walks the ranked
  catalog in order. Every title not yet searched becomes a *seed*. For each
  direction ('follows', then 'followed by'), the resolver asks how many links
  the seed declares. It fetches the first disclosed batch and looks those ids
  up in the catalog. While it has fewer rows than declared, it chases the
  hidden tail by asking for the 'followed by' links of the last gathered row.
  The seed and its unwatched connections form a *group*. The group is sorted
  by (startYear, index) and kept if any row in it is unwatched. The walk stops
  once the running count of unwatched non-videogame rows reaches the quota.
  The web page and the movie API are replaced by an abstract `Provider` with
  two functions, `count(id, dir)` and `batch(id, dir)`. A ghost trace records
  every query the resolver makes.
- **The ratings scraper** (`get_num_pages`, `get_next_page`, `extract_info`,
  `get_user_ratings`). The HTML is replaced by text that has already been
  extracted: each page's pagination caption, plus an (href, rating text) pair
  for each listed title.
- **The dashboard's table filters** (`load_content_type`,
  `select_content_by_show_choice`, `show_finished_series`). The current year
  is a parameter.

Modules:

- `Wrappers`: `Option` and `Result`.
- `Seqs`: order-preserving filter, count, subsequence.
- `PyStr`: the Python string operations the code relies on, such as
  `str.find`, slicing with clamped and negative bounds, `str.split`,
  `str.strip` of Python's `isspace()` whitespace, `str.replace` of one
  character, `int()` on unsigned ASCII numerals and `str()`.
- `Catalog`: the title row.
- `AppFunctions`, `FetchingRatings`, `FetchingConnections`: one module per
  source file.
- `ConnectionsProperties`: the lemmas about the resolver.

The resolver is specified by functions:

- `Chase`: the `while` loop.
- `ExpandDir` and `ExpandDirs`: the loop over connection types; `DirRows`:
  the rows one direction gathers.
- `ProcessSeed` and `Emit`: the body of the outer loop.
- `Walk` and `Run`: the outer loop over the first `k` titles. `Walk` takes
  the per-seed step as a parameter, and `Run` passes it `ProcessSeed`.
- `Resolve`: the whole function, ending in `Concatenate`, which raises as
  `pd.concat` and the column selection do.

The methods `ExpandDirection`, `SearchSeed`, `EmitGroup`, `VisitTitle`,
`WalkSubset` and `GetOrderedConnections` run the same loops imperatively, with `break`. Each is
proved equal to its specification function. The lemmas then state what the
source promises about those functions.

## Model

| member | source | states |
|---|---|---|
| FetchingConnections.OptionValue | fetching_connections.py:21-24 | no contract of its own: the option value `'#' + type`, with 'followed by' spelled `followed_by`; specified by NumConnections |
| FetchingConnections.Label | fetching_connections.py:134-138 | no contract of its own: the `connection` text "<relation> <seed title> (<seed>)"; specified by GatheredRows and ExpandDirsGroup |
| FetchingConnections.Labelled | fetching_connections.py:134-138 | the rows in order, each with its `connection` cell set to the label |
| FetchingConnections.Chase | fetching_connections.py:147-171 | no contract of its own; specified by ChaseTrace, ChaseRows, ChaseStop, ChaseChain, ChaseLearned and ChaseRowsIgnoreHistory |
| FetchingConnections.DirRows | fetching_connections.py:124-171 | no contract of its own; specified by DirRowsTrace and GatheredRows |
| FetchingConnections.ExpandDir | fetching_connections.py:119-188 | no contract of its own; specified by ExpandDirTrace, ExpandDirLearned, ExpandDirGroup and ExpandDirIgnoresHistory |
| FetchingConnections.ExpandDirs | fetching_connections.py:119-188 | no contract of its own; specified by ExpandDirsTrace, ExpandDirsLearned, ExpandDirsGroup and ExpandDirsIgnoresHistory |
| FetchingConnections.InsertByYearIndex | fetching_connections.py:193-194 | no contract of its own; specified by InsertByYearIndexSpec, InsertByYearIndexMultiset and InsertByYearIndexSorted |
| FetchingConnections.SortByYearIndex | fetching_connections.py:193-194 | no contract of its own; specified by SortByYearIndexSpec |
| FetchingConnections.Contribution | fetching_connections.py:196 | no contract of its own: unwatched rows minus videogame rows; specified by AppendGroup and RunCountQuota |
| FetchingConnections.SeedRows | fetching_connections.py:114 | no contract of its own: the seed's own subset rows; specified by SeedRowsOfMember |
| FetchingConnections.SeedStart | fetching_connections.py:111-115 | no contract of its own: the seed marked searched, its rows without a connection label; specified by ProcessSeedLearned and ExpandedGroupRows |
| FetchingConnections.ProcessSeed | fetching_connections.py:111-200 | no contract of its own; specified by ProcessSeedTrace, ProcessSeedLearned, ProcessSeedEmits, ProcessSeedGroup and the ProcessSeedKeeps* lemmas |
| FetchingConnections.Emit | fetching_connections.py:190-197 | no contract of its own; specified by ProcessSeedEmits and ProcessSeedGroup |
| FetchingConnections.Advance | fetching_connections.py:196-200 | no contract of its own: the quota `break` after an emitted group; specified by RunCountQuota |
| FetchingConnections.SeedStep | fetching_connections.py:111-200 | no contract of its own: the per-seed step `Walk` is given; specified through RunSeedStep |
| FetchingConnections.Run | fetching_connections.py:107-200 | no contract of its own; specified by RunSeeds, RunSearchedIsLearned, RunGroups, RunCountQuota, RunRows and WalkSubset |
| FetchingConnections.Flatten | fetching_connections.py:203 | no contract of its own; specified by FlattenMember, FlattenRows and ResolveOutcome |
| FetchingConnections.Concatenate | fetching_connections.py:203-205 | no contract of its own; specified by ResolveOutcome |
| FetchingConnections.Resolve | fetching_connections.py:78-208 | no contract of its own; specified by ResolveOutcome, ResolveRows and ResolveSeeds, and run by GetOrderedConnections |
| FetchingConnections.FirstOption | fetching_connections.py:24 | `soup.find` on the option list: `None` exactly when no option has the value; otherwise the first option that has it |
| FetchingConnections.NumConnections | fetching_connections.py:14-31 | no option for the connection type gives a count of 0; 'followed by' is looked up as `#followed_by` |
| FetchingConnections.NumConnectionsOfLabel | fetching_connections.py:21-31 | a label "<word>(<n>)<rest>" whose word has no parentheses gives `Ok(n)`: the text between the first '(' and the first ')' is parsed by `int()` |
| FetchingConnections.LabelParens | fetching_connections.py:29 | in "<word>(<digits>)<rest>", `find('(')` is at the end of the word and `find(')')` ends the digits, so the slice is exactly the digits |
| FetchingConnections.FindTitleConnections | fetching_connections.py:37-75 | one id per listed movie id, in list order, each 'tt' followed by that movie id; empty when the connection type is absent |
| FetchingConnections.WithTtPrefix | fetching_connections.py:69-73 | the append loop: the same length as the input, with element k equal to 'tt' + id k |
| FetchingConnections.Lookup | fetching_connections.py:126 | `content[content['tconst'].isin(ids)]` returns no more rows than the catalog has |
| FetchingConnections.LookupSpec | fetching_connections.py:126 | a catalog row is looked up exactly when its tconst is among the ids; the result keeps catalog order, not disclosure order |
| FetchingConnections.InsertByYearIndexMultiset | fetching_connections.py:193-194 | inserting a row into a group adds exactly that row and loses none |
| FetchingConnections.InsertByYearIndexSorted | fetching_connections.py:193-194 | inserting a row into a group sorted by (startYear, index) keeps it sorted |
| FetchingConnections.InsertByYearIndexSpec | fetching_connections.py:193-194 | inserting a row into a group sorted by (startYear, index) keeps the group sorted and adds exactly that row |
| FetchingConnections.SortByYearIndexSpec | fetching_connections.py:193-194 | `sort_values(['startYear', 'index'])` yields a permutation of the group, sorted by (startYear, index) |
| FetchingConnections.Subset | fetching_connections.py:89-92 | with videogames excluded, the subset is the catalog's non-videogame rows, each as often as in the catalog and in catalog order; otherwise it is the catalog itself |
| FetchingConnections.Walk | fetching_connections.py:107-200 | the walk over the first k titles stops, if at all, at an index among those k titles |
| FetchingConnections.SeedRowsOfMember | fetching_connections.py:107-115 | every title enumerated from the subset finds its own row in the subset, so `mini_df` starts non-empty |
| FetchingConnections.ExpandDirection | fetching_connections.py:119-188 | one connection type, with its continuation loop and `break`, computes exactly `ExpandDir` |
| FetchingConnections.SearchSeed | fetching_connections.py:111-200 | the body of the outer loop for an unsearched title computes exactly `ProcessSeed` |
| FetchingConnections.EmitGroup | fetching_connections.py:192-197 | keeps the group, sorted, only when it has an unwatched row, and adds (unwatched − videogames) to `num_titles`, exactly as `Emit` |
| FetchingConnections.GetOrderedConnections | fetching_connections.py:78-208 | the imperative resolver returns exactly `Resolve`: the rows and the last enumerated index, or the exception `pd.concat` or the column selection raises, and the query trace |
| FetchingConnections.RunSeedStep | fetching_connections.py:109-112 | a title not yet searched is processed as a seed |
| FetchingConnections.WalkSkipStep | fetching_connections.py:109-110 | a title already searched is passed over, and nothing changes |
| FetchingConnections.WalkStaysStopped | fetching_connections.py:199-200 | after the quota `break`, later titles change nothing |
| FetchingConnections.WalkInvariant | fetching_connections.py:107-200 | a property of the walk's state that holds before the first title and that every seed step preserves holds after any number of titles |
| FetchingConnections.VisitTitle | fetching_connections.py:107-200 | one iteration of the outer loop advances the state exactly as `Run` does from k to k+1 titles, and breaks exactly when `Run` records the stop |
| FetchingConnections.WalkSubset | fetching_connections.py:107-200 | the outer loop with its quota `break` ends in exactly the state `Run` gives for the whole subset, stopped at the break index or run to the last index |
| ConnectionsProperties.LearnedSnoc | fetching_connections.py:112 | the ids a trace makes known grow by exactly what the next event discloses |
| ConnectionsProperties.LearnedContains | fetching_connections.py:125 | an id disclosed by any event of a trace is among the ids the trace made known |
| ConnectionsProperties.ChaseLearned | fetching_connections.py:156 | the continuation loop keeps `searched_tconsts` equal to the ids its trace made known: each continuation appends exactly the ids its batch discloses |
| ConnectionsProperties.ExpandDirLearned | fetching_connections.py:120-125 | one connection type keeps `searched_tconsts` equal to the ids made known: a count query adds nothing, a batch query adds exactly its ids |
| ConnectionsProperties.ExpandDirsLearned | fetching_connections.py:119-125 | both connection types together keep `searched_tconsts` equal to the ids made known |
| ConnectionsProperties.ProcessSeedLearned | fetching_connections.py:112-156 | expanding a seed keeps `searched_tconsts` equal to the ids made known: the seed itself, then every id disclosed while it is expanded |
| ConnectionsProperties.RunKeeps | fetching_connections.py:107-197 | a property of the resolver's state that holds at the start and survives the expansion of any unsearched seed holds after any number of titles |
| ConnectionsProperties.RunSearchedIsLearned | fetching_connections.py:107-171 | `searched_tconsts` is at every point the seeds plus every id ever disclosed, whether or not it is in the catalog |
| ConnectionsProperties.ChaseTrace | fetching_connections.py:147-171 | the chase only appends to the trace; it asks nothing when the count is met; otherwise it asks between 1 and (count − rows) times, every query is a 'followed by' batch, and the first one is for the last gathered row |
| ConnectionsProperties.DirRowsTrace | fetching_connections.py:124-171 | for a direction with a non-zero count, the seed's own batch is asked first, then only 'followed by' continuations |
| ConnectionsProperties.ExpandDirTrace | fetching_connections.py:119-126 | a direction first asks the count; a zero count triggers no batch fetch and changes nothing else; otherwise the next query is the seed's own batch in that direction |
| ConnectionsProperties.ExpandDirsTrace | fetching_connections.py:119-188 | expanding the directions only appends queries to the trace and takes no seed |
| ConnectionsProperties.ProcessSeedTrace | fetching_connections.py:111-188 | expanding a seed records the seed first, then only count and batch queries |
| ConnectionsProperties.FreshSeedsExtend | fetching_connections.py:109 | appending queries that take no seed keeps every seed fresh (unknown when it was taken) |
| ConnectionsProperties.FreshSeedsAddSeed | fetching_connections.py:109-112 | taking a title not yet searched keeps every seed fresh |
| ConnectionsProperties.SeedsDistinct | fetching_connections.py:109 | fresh seeds are pairwise distinct, so no title is a seed twice |
| ConnectionsProperties.ProcessSeedKeepsSeeds | fetching_connections.py:109-188 | expanding an unsearched seed keeps the searched list equal to the ids made known, keeps every seed fresh, and takes seeds only from the subset |
| ConnectionsProperties.RunSeeds | fetching_connections.py:107-112 | a tconst already searched, as a seed or as a disclosed id, is never taken as a seed again; every seed is a title of the subset |
| ConnectionsProperties.ChaseRows | fetching_connections.py:157-171 | the chase only appends rows, and each one is a catalog row labelled like the first batch |
| ConnectionsProperties.ChaseStop | fetching_connections.py:147-162 | every continuation but the last resolved to at least one catalog row, and the next one asks for the last of those rows; the chase stops short of the declared count only when its last query resolved to no catalog row |
| ConnectionsProperties.ChaseChain | fetching_connections.py:147-171 | each continuation after the first asks for the last row the previous continuation added, and every continuation but the last added some row |
| ConnectionsProperties.GatheredRows | fetching_connections.py:126-171 | every row gathered for a direction is a catalog row labelled "<relation> <seed title> (<seed id>)" |
| ConnectionsProperties.ExpandDirGroup | fetching_connections.py:134-188 | a direction only appends to the group, and only unwatched catalog rows carrying that direction's label |
| ConnectionsProperties.ExpandDirsGroup | fetching_connections.py:102-188 | after both directions, every added row is unwatched, in the catalog, and labelled 'Followed by …' or 'Follows …' for the seed |
| ConnectionsProperties.ProcessSeedEmits | fetching_connections.py:192-197 | a seed emits exactly one group and adds its (unwatched − videogames) contribution, or changes neither; it emits exactly when its expanded group has an unwatched row |
| ConnectionsProperties.ExpandedGroupRows | fetching_connections.py:115-188 | before sorting, the expanded group holds the seed's own unlabelled row, only catalog rows, and only unwatched labelled connections of the seed |
| ConnectionsProperties.SortedGroupWellFormed | fetching_connections.py:190-194 | sorting a group that has an unwatched row keeps its rows and sorts them, so the emitted group is well formed |
| ConnectionsProperties.ProcessSeedGroup | fetching_connections.py:115-195 | an emitted group is sorted, has an unwatched row, starts from the seed's own unlabelled row, and holds catalog rows whose labelled members are unwatched connections of the seed |
| ConnectionsProperties.ProcessSeedKeepsGroups | fetching_connections.py:190-195 | expanding a seed keeps every emitted group well formed for some seed row of the subset |
| ConnectionsProperties.RunGroups | fetching_connections.py:107-195 | every group emitted during the walk is well formed for some seed row of the subset |
| ConnectionsProperties.AppendGroup | fetching_connections.py:195-197 | appending a group adds its contribution to the total and keeps every proper prefix below the quota |
| ConnectionsProperties.ProcessSeedKeepsCount | fetching_connections.py:192-200 | expanding a seed keeps the count equal to the groups' total, every proper prefix below the quota, and the stop exactly where the total reaches it |
| ConnectionsProperties.RunCountQuota | fetching_connections.py:105-200 | `num_titles` is the total contribution of the emitted groups; no proper prefix of the groups reaches the quota; the walk stops exactly when the last group takes the total to the quota |
| ConnectionsProperties.ChaseRowsIgnoreHistory | fetching_connections.py:157 | continuation rows are never filtered against the searched list: they depend only on the rows already gathered |
| ConnectionsProperties.ExpandDirIgnoresHistory | fetching_connections.py:126 | neighbours are not filtered against ids searched earlier |
| ConnectionsProperties.ExpandDirsIgnoresHistory | fetching_connections.py:119-188 | a seed's expanded group depends only on the group it started with |
| ConnectionsProperties.SeedGroupIgnoresHistory | fetching_connections.py:111-195 | whether a seed emits a group, and which group, does not depend on earlier seeds, so a title can appear under two seeds |
| ConnectionsProperties.FlattenMember | fetching_connections.py:203 | every row of `pd.concat(mini_dfs)` comes from one of the groups |
| ConnectionsProperties.FlattenRows | fetching_connections.py:203 | concatenating well-formed groups yields only catalog rows, and only unwatched connection rows |
| ConnectionsProperties.RunRows | fetching_connections.py:107-203 | the concatenated groups of the walk hold only catalog rows, and only unwatched connection rows |
| ConnectionsProperties.ResolveSeeds | fetching_connections.py:89-112 | every seed is a catalog title, never a videogame when videogames are excluded, and no seed had been seen before it was taken |
| ConnectionsProperties.ResolveRows | fetching_connections.py:78-208 | on success, every returned row is a catalog row, and every connection row among them is unwatched |
| ConnectionsProperties.ResolveOutcome | fetching_connections.py:202-205 | the resolver raises exactly when no emitted group holds a connection row: ValueError when no group was emitted (an empty subset included), KeyError on the missing `connection` column otherwise; a result's index lies within the subset |
| FetchingRatings.LastPiece | fetching_ratings.py:40 | no contract of its own: `parts[-1]`; specified by CaptionLastPiece |
| FetchingRatings.FilmCount | fetching_ratings.py:41 | no contract of its own: `int(text.replace(',', ''))`; specified by FilmCountOfCountText |
| FetchingRatings.NumFilms | fetching_ratings.py:38-41 | no contract of its own; specified by NumFilmsOfCaption and NumPages |
| FetchingRatings.ExtractEntry | fetching_ratings.py:76-80 | no contract of its own: the tconst and int rating of one listed title, or the exception it raises; specified by TconstOf and AssignedOkIff |
| FetchingRatings.Extracted | fetching_ratings.py:66-84 | no contract of its own; specified by ExtractInfo and ExtractedLastWins |
| FetchingRatings.Assigned | fetching_ratings.py:72-84 | no contract of its own; specified by AssignedErrPropagates, AssignedOkIff, AssignedKeys, AssignedLastWins and AssignedAppend |
| FetchingRatings.MergedPages | fetching_ratings.py:93-108 | no contract of its own; specified by MergedPagesStep, MergedPagesErrPropagates and MergedPagesIsOnePass |
| FetchingRatings.UserRatings | fetching_ratings.py:87-113 | no contract of its own; specified by GetUserRatings and MergedPagesIsOnePass |
| FetchingRatings.Pages | fetching_ratings.py:89-91 | the pages in visiting order start with the page the first request returns |
| FetchingRatings.NumPages | fetching_ratings.py:19-46 | the page count exists exactly when the film count parses; it is at least 1 and equals 1 + films // 100 |
| FetchingRatings.NumFilmsOfCaption | fetching_ratings.py:38-41 | a caption "<range>of <count>", padded with any whitespace on both sides, gives the count with its commas removed, e.g. '  1 - 100 of 1,118  ' gives 1118 |
| FetchingRatings.CaptionLastPiece | fetching_ratings.py:39-40 | stripping a padded caption leaves "<range>of <count>", and the last piece of its `split('of ')` is the count text |
| FetchingRatings.CaptionStrip | fetching_ratings.py:39 | `strip()` of a padded caption removes exactly the padding |
| FetchingRatings.FilmCountOfCountText | fetching_ratings.py:41 | `int(text.replace(',', ''))` of a count text is the value of its digits |
| FetchingRatings.CaptionHasNoEdgeSpace | fetching_ratings.py:39 | such a caption has no space at either edge, so `strip()` leaves it unchanged |
| FetchingRatings.CaptionSeparatorOnce | fetching_ratings.py:40 | 'of ' occurs in the caption only where the count text begins |
| FetchingRatings.CountTextDigits | fetching_ratings.py:41 | removing the commas from a count text leaves a non-empty digit string |
| FetchingRatings.GetNextPage | fetching_ratings.py:49-63 | the page number increases by exactly 1 and the next page is the one visited next; `Err` when there is no next link |
| FetchingRatings.TconstOf | fetching_ratings.py:77 | `href.split('/')[-2]` exists exactly when the href has at least two pieces |
| FetchingRatings.TconstOfTitleLink | fetching_ratings.py:76-77 | '/title/<t>/' gives t when t has no '/', e.g. '/title/tt0328832/' gives 'tt0328832' |
| FetchingRatings.SplitLink | fetching_ratings.py:77 | splitting '/<w>/<t>/' on '/' gives ['', w, t, ''] |
| FetchingRatings.AssignInto | fetching_ratings.py:82 | `d[tconst] = rating` sets that key and leaves every other key as it was; an exception aborts |
| FetchingRatings.ExtractInfo | fetching_ratings.py:66-84 | the loop over listed titles computes exactly `Extracted` |
| FetchingRatings.AssignedErrPropagates | fetching_ratings.py:74-82 | once an entry raises, the extraction fails with that exception |
| FetchingRatings.AssignedOkIff | fetching_ratings.py:74-82 | extraction succeeds exactly when every entry yields a tconst and an int rating |
| FetchingRatings.AssignedKeys | fetching_ratings.py:82 | the dictionary's keys are exactly the tconsts of the entries |
| FetchingRatings.AssignedLastWins | fetching_ratings.py:82 | the last entry for a key decides its value |
| FetchingRatings.AssignedAppend | fetching_ratings.py:100 | extracting two runs of entries and merging with `update` equals extracting both in one pass |
| FetchingRatings.ExtractedLastWins | fetching_ratings.py:77-82 | the last listed rating of a tconst is the one kept |
| FetchingRatings.GetUserRatings | fetching_ratings.py:87-113 | the page loop computes exactly `UserRatings` and advances `num_pages − 1` times |
| FetchingRatings.MergePage | fetching_ratings.py:97-100 | extracting page n, then starting the dictionary with it (page 1) or updating the dictionary, gives exactly the merge of pages 1..n, or the error the extraction raised |
| FetchingRatings.MergedPagesStep | fetching_ratings.py:97-100 | page n's ratings are merged over pages 1..n−1; page 1 starts from an empty dictionary |
| FetchingRatings.MergedPagesErrPropagates | fetching_ratings.py:93-108 | an exception on a page ends the whole scrape with that exception |
| FetchingRatings.MergedPagesPrefix | fetching_ratings.py:93-108 | merging pages 1..n with `update` equals extracting all their entries in one pass |
| FetchingRatings.MergedPagesBeyond | fetching_ratings.py:93-108 | asking for more pages than exist ends in `Err` |
| FetchingRatings.MergedPagesIsOnePass | fetching_ratings.py:93-108 | merging pages 1..n with `update` equals extracting all their entries in one pass, so a later rating of a tconst overwrites an earlier one; asking for more pages than exist fails |
| AppFunctions.LoadContentType | app_functions.py:41-49 | 'Non Series' keeps exactly the rows whose type is not tvSeries, tvMiniSeries, tvEpisode or videoGame; 'Series' keeps exactly tvSeries and tvMiniSeries rows; 'Videogames' keeps exactly videoGame rows; each keeps row order; any other choice gives no result |
| AppFunctions.ContentKindsPartition | app_functions.py:43-49 | the three kinds never share a row; a tvEpisode row is in none of them, and every other row is in exactly one |
| AppFunctions.SelectContentByShowChoice | app_functions.py:95-109 | 'All' returns the table unchanged; 'Rated' keeps exactly the rows the user rated and 'Unrated' exactly the others, in order; any other choice gives no result |
| AppFunctions.RatedUnratedSplit | app_functions.py:105-109 | Rated and Unrated together hold every row exactly once |
| AppFunctions.ShowFinishedSeries | app_functions.py:113-121 | keeps, in order, exactly the rows with a known end year no later than the current year |
| Seqs.Filter | app_functions.py:45 | a boolean mask keeps row order and keeps exactly the rows that satisfy it, with their multiplicity |
| Seqs.CountPositiveIffAny | fetching_connections.py:187-192 | `isnull().any()` holds exactly when the number of unwatched rows is positive |
| PyStr.IndexOf | fetching_ratings.py:40 | the first occurrence's start, or −1, with the separator fitting inside the string; fully specified by IndexOfFirst |
| PyStr.Split | fetching_ratings.py:40 | at least one piece; specified by SplitPiecesFree, JoinSplit, SplitLastPiece and SplitOnChar |
| PyStr.LStrip | fetching_ratings.py:39 | never longer than its input; specified by StripSpec and StripPadded |
| PyStr.RStrip | fetching_ratings.py:39 | never longer than its input; specified by StripSpec and StripPadded |
| PyStr.Strip | fetching_ratings.py:39 | no contract of its own; specified by StripSpec and StripPadded |
| PyStr.RemoveChar | fetching_ratings.py:41 | never longer than its input; specified by RemoveCharSpec |
| PyStr.DigitsValue | fetching_ratings.py:41 | no contract of its own: the value of a decimal numeral; specified by ParseIntNatToString and FilmCountOfCountText |
| PyStr.NatToString | fetching_connections.py:29 | a non-empty digit string without a leading zero; `int()` inverts it (ParseIntNatToString) |
| PyStr.Find | fetching_connections.py:29 | `str.find`: −1 exactly when the character is absent; otherwise the index of its first occurrence |
| PyStr.Slice | fetching_connections.py:29 | `s[a:b]` is the plain slice when the bounds are in range |
| PyStr.SplitPiecesFree | fetching_ratings.py:40 | no piece of `str.split(sep)` contains the separator |
| PyStr.JoinSplit | fetching_ratings.py:40 | `sep.join(s.split(sep)) == s` |
| PyStr.SplitLastPiece | fetching_ratings.py:40 | `split(sep)[-1]` of "<a><sep><b>" is b when the separator occurs nowhere after a |
| PyStr.SplitLastPieceAt | fetching_ratings.py:40 | when the occurrence of the separator at m is the last cut the scan can make, the last piece of `split` is what follows it |
| PyStr.SplitOnChar | fetching_ratings.py:77 | splitting on a character cuts at its first occurrence: "<p><c><rest>" gives p followed by the pieces of rest |
| PyStr.IndexOfFirst | fetching_ratings.py:40 | the separator search finds its first occurrence, or −1 when there is none |
| PyStr.StripSpec | fetching_ratings.py:39 | `strip()` removes exactly the leading and trailing whitespace, where whitespace is Python's `isspace()` set |
| PyStr.StripPadded | fetching_ratings.py:39 | `strip()` of whitespace padding around a text with no whitespace at either end gives back the text |
| PyStr.RemoveCharSpec | fetching_ratings.py:41 | `replace(',', '')` removes every comma and keeps every other character as often as it occurred |
| PyStr.ParseInt | fetching_ratings.py:80 | `int()` succeeds exactly on a digit string, once surrounding whitespace is stripped |
| PyStr.ParseIntNatToString | fetching_connections.py:29 | `int(str(n)) == n` |

## Left out

- I/O is not part of this model. That covers HTTP requests, BeautifulSoup parsing, `Cinemagoer.get_movie`, gzip dataset loading, Streamlit caching and `print` logging. The provider, the option list, and the page captions and entries stand in for what those calls return.
- watch_next.py is not part of this model. It holds the Streamlit page layout, image download and session state.
- `normalise_scores` and `compute_scores` are left out because they are floating-point numerics (min-max scaling, `np.exp`, rounding, averages).
- `datetime.now()` is replaced by the `currentYear` parameter of `ShowFinishedSeries`.
- FetchingConnections.GetOrderedConnections: of the column selection (fetching_connections.py:204-205), only the `KeyError` on a missing `connection` column is modelled. Only `connection` can be missing from the concatenated table, because every group carries the catalog's columns. The model's row keeps only the fields the resolver reads, so the selection of the other columns and `reset_index` are not modelled.
- FetchingConnections.GetOrderedConnections: the provider is total. An exception raised by `get_num_connections` (a label that does not parse) or by the movie API is not propagated into the resolver. `NumConnections` models that parse, with its error, on its own.
- FetchingConnections.SortByYearIndex: pandas `sort_values` on several columns sorts stably (lexicographic, whatever `kind` says), and the model inserts stably as well. Rows with equal (startYear, index) can be different titles, because index labels repeat once the per-kind tables are merged with the ratings (app_functions.py:82) and concatenated (watch_next.py:72). Stability itself is not proved; only sortedness and permutation are.
- FetchingRatings.GetUserRatings: returns the dictionary as a map. The `DataFrame.from_dict` conversion (fetching_ratings.py:110-111) is not modelled: its row order (dictionary insertion order), and the missing `userRating` column of the frame an empty dictionary gives. Callers merge on tconst, so only the keys and values matter.
- PyStr.ParseInt: accepts unsigned decimal digits only. Python's `int()` also accepts a sign, underscores and non-ASCII digits.
- Catalog.Title: `startYear` is an integer. The dataset's `\N` marker for an unknown start year is not modelled in the sort key.
- FetchingRatings.NumPages: modelled as written, `1 + films // 100`. A positive multiple of 100 films gives one page more than exist, so the loop then asks for a missing next page and the scrape ends in `Err`. The page markup on the last page is not modelled, so it is unknown whether the site shows a next link there.
- AppFunctions.SelectContentByShowChoice: 'Rated' is an inner merge on `tconst` with the ratings table (app_functions.py:106). The table already holds a `userRating` column from the left join at watch_next.py:59, so the merge splits it into `userRating_x` and `userRating_y`, and it gives the result a fresh 0..n−1 index. The model keeps each rated row unchanged, with its single `userRating` and its original index label.
- Connection rows come out in catalog order, not disclosure order. Neighbours are not filtered against ids already searched, so a title can appear under several seeds (`SeedGroupIgnoresHistory`).
