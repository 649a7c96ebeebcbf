/**
 * The sequel/prequel resolver. A provider answers, for a title and a direction,
 * how many links the title declares and which ids it discloses in one batch;
 * the resolver walks a ranked catalog, expands every title not yet searched
 * into a group of itself and its unwatched connections, and stops once enough
 * unwatched titles are gathered.
 */
module FetchingConnections {
  import opened Wrappers
  import opened PyStr
  import opened Catalog
  import Seqs

  // ---------------------------------------------------------------------------
  // get_num_connections
  // ---------------------------------------------------------------------------

  /** An `<option>` element of the connections page: its `value` attribute and its text. */
  datatype OptionTag = OptionTag(value: string, text: string)

  /** The `value` looked up for a connection type: 'followed by' is spelled `followed_by` in the page. */
  function OptionValue(connectionType: string): string
  {
    "#" + (if connectionType == "followed by" then "followed_by" else connectionType)
  }

  /** `soup.find('option', {'value': value})`: the first option carrying that value. */
  function FirstOption(options: seq<OptionTag>, value: string): (r: Option<OptionTag>)
    ensures r.None? <==> forall k :: 0 <= k < |options| ==> options[k].value != value
    ensures r.Some? ==> exists k :: 0 <= k < |options| && options[k] == r.value && r.value.value == value &&
                                    forall j :: 0 <= j < k ==> options[j].value != value
    decreases |options|
  {
    if options == [] then None
    else if options[0].value == value then Some(options[0])
    else
      var r := FirstOption(options[1..], value);
      assert r.Some? ==> exists k :: 0 < k < |options| && options[k] == r.value && r.value.value == value &&
                                     forall j :: 0 <= j < k ==> options[j].value != value by {
        if r.Some? {
          var k :| 0 <= k < |options[1..]| && options[1..][k] == r.value && r.value.value == value &&
                   forall j :: 0 <= j < k ==> options[1..][j].value != value;
          assert forall j :: 1 <= j < k + 1 ==> options[j] == options[1..][j - 1];
        }
      }
      r
  }

  /**
   * `get_num_connections` on an already-fetched page: 0 when no option names the
   * connection type, otherwise `int()` of the text between the first '(' and the
   * first ')' of the option's label; `Err` where `int()` raises.
   */
  function NumConnections(options: seq<OptionTag>, connectionType: string): (r: Result<nat>)
    ensures FirstOption(options, OptionValue(connectionType)).None? ==> r == Ok(0)
  {
    match FirstOption(options, OptionValue(connectionType))
    case None => Ok(0)
    case Some(connection) =>
      var txt := connection.text;
      match ParseInt(Slice(txt, Find(txt, '(') + 1, Find(txt, ')')))
      case None => Err("ValueError: invalid literal for int()")
      case Some(numConnections) => Ok(numConnections)
  }

  /** A label "<word>(<n>)<rest>" whose word has no parentheses declares `n` connections (`"Follows (3)"` gives 3). */
  lemma NumConnectionsOfLabel(options: seq<OptionTag>, connectionType: string, word: string, rest: string, n: nat)
    requires '(' !in word && ')' !in word
    requires FirstOption(options, OptionValue(connectionType)).Some?
    requires FirstOption(options, OptionValue(connectionType)).value.text == word + ['('] + NatToString(n) + [')'] + rest
    ensures NumConnections(options, connectionType) == Ok(n)
  {
    var digits := NatToString(n);
    var txt := word + ['('] + digits + [')'] + rest;
    LabelParens(word, digits, rest);
    assert Slice(txt, Find(txt, '(') + 1, Find(txt, ')')) == digits;
    ParseIntNatToString(n);
  }

  /** In "<word>(<digits>)<rest>", the first '(' and the first ')' enclose the digits. */
  lemma LabelParens(word: string, digits: string, rest: string)
    requires '(' !in word && ')' !in word && IsDigits(digits)
    ensures var txt := word + ['('] + digits + [')'] + rest;
            Find(txt, '(') == |word| && Find(txt, ')') == |word| + 1 + |digits| &&
            txt[|word| + 1..|word| + 1 + |digits|] == digits
  {
    OpenParenOfLabel(word, digits, rest);
    CloseParenOfLabel(word, digits, rest);
    var txt := word + ['('] + digits + [')'] + rest;
    assert txt[|word| + 1..|word| + 1 + |digits|] == digits;
  }

  lemma OpenParenOfLabel(word: string, digits: string, rest: string)
    requires '(' !in word
    ensures Find(word + ['('] + digits + [')'] + rest, '(') == |word|
  {
    var tail := digits + [')'] + rest;
    assert word + ['('] + digits + [')'] + rest == word + (['('] + tail);
    FindFirst(word, '(', tail);
  }

  lemma CloseParenOfLabel(word: string, digits: string, rest: string)
    requires ')' !in word && IsDigits(digits)
    ensures Find(word + ['('] + digits + [')'] + rest, ')') == |word| + 1 + |digits|
  {
    var head := word + ['('] + digits;
    forall k | 0 <= k < |head| ensures head[k] != ')' {
      if k > |word| {
        assert head[k] == digits[k - |word| - 1];
      }
    }
    assert word + ['('] + digits + [')'] + rest == head + ([')'] + rest);
    FindFirst(head, ')', rest);
  }

  /** The first `c` of "<a><c><b>" is at |a| when `a` has none. */
  lemma FindFirst(a: string, c: char, b: string)
    requires c !in a
    ensures Find(a + ([c] + b), c) == |a|
  {
    FindAppend(a, [c] + b, c);
  }

  // ---------------------------------------------------------------------------
  // find_title_connections
  // ---------------------------------------------------------------------------

  /**
   * `find_title_connections` on the connections dictionary the API returned for a
   * title: one 'tt'-prefixed id per listed movie id, in list order; nothing when
   * the connection type is absent. Stripping the prefix (`tconst[2:]`, what the
   * API is queried with) gives back the movie id.
   */
  function FindTitleConnections(connections: map<string, seq<string>>, connectionType: string): (ps: seq<string>)
    ensures connectionType !in connections ==> ps == []
    ensures connectionType in connections ==> |ps| == |connections[connectionType]|
    ensures forall k :: 0 <= k < |ps| ==> |ps[k]| >= 2 && ps[k][..2] == "tt" && ps[k][2..] == connections[connectionType][k]
  {
    if connectionType in connections then WithTtPrefix(connections[connectionType]) else []
  }

  function WithTtPrefix(movieIds: seq<string>): (ps: seq<string>)
    ensures |ps| == |movieIds|
    ensures forall k :: 0 <= k < |ps| ==> |ps[k]| >= 2 && ps[k][..2] == "tt" && ps[k][2..] == movieIds[k]
    decreases |movieIds|
  {
    if movieIds == [] then [] else ["tt" + movieIds[0]] + WithTtPrefix(movieIds[1..])
  }

  // ---------------------------------------------------------------------------
  // The provider and the rows the resolver handles
  // ---------------------------------------------------------------------------

  /** The two keys of `connection_types`, in their iteration order. */
  datatype Direction = Follows | FollowedBy

  const Directions: seq<Direction> := [Follows, FollowedBy]

  /** The key passed to the helpers. */
  function DirectionKey(d: Direction): string
  {
    match d
    case Follows => "follows"
    case FollowedBy => "followed by"
  }

  /** The value of `connection_types`: a prequel found by 'follows' is 'Followed by' the seed, and vice versa. */
  function RelationWord(d: Direction): string
  {
    match d
    case Follows => "Followed by"
    case FollowedBy => "Follows"
  }

  /**
   * The connection data source: `count` stands for `get_num_connections` and
   * `batch` for `find_title_connections`, both queried by tconst.
   */
  datatype Provider = Provider(count: (string, Direction) -> nat, batch: (string, Direction) -> seq<string>)

  /** What the resolver did, in order: a title taken as seed, a count query, a batch query. */
  datatype Event = Seeded(id: string) | CountCall(id: string, dir: Direction) | BatchCall(id: string, dir: Direction)

  /** A row of a group with its `connection` column (`None` for the seed's own row, which has none). */
  datatype Entry = Entry(row: Title, connection: Option<string>)

  /** The `connection` text of a row reached from `seed` in direction `d`. */
  function Label(d: Direction, seedTitle: string, seed: string): string
  {
    RelationWord(d) + " " + seedTitle + " (" + seed + ")"
  }

  /** `rows[rows['tconst'].isin(ids)]`: the rows whose id is listed, in the order of `rows`. */
  function Lookup(rows: seq<Title>, ids: seq<string>): (r: seq<Title>)
    ensures |r| <= |rows|
    decreases |rows|
  {
    if rows == [] then [] else (if rows[0].tconst in ids then [rows[0]] else []) + Lookup(rows[1..], ids)
  }

  /** The lookup keeps exactly the rows whose id is listed, in catalog order. */
  lemma {:induction false} LookupSpec(rows: seq<Title>, ids: seq<string>)
    ensures forall t :: t in Lookup(rows, ids) <==> t in rows && t.tconst in ids
    ensures Seqs.IsSubsequence(Lookup(rows, ids), rows)
    decreases |rows|
  {
    if rows != [] {
      LookupSpec(rows[1..], ids);
      assert rows == [rows[0]] + rows[1..];
      var rest := Lookup(rows[1..], ids);
      if rows[0].tconst in ids {
        assert ([rows[0]] + rest)[1..] == rest;
      } else {
        assert Lookup(rows, ids) == rest;
        if rest != [] {
          assert rest[0] in rest;
        }
      }
    }
  }

  /** The rows with their `connection` column set to `connection`. */
  function Labelled(rows: seq<Title>, connection: Option<string>): (r: seq<Entry>)
    ensures |r| == |rows|
    ensures forall k :: 0 <= k < |r| ==> r[k] == Entry(rows[k], connection)
    decreases |rows|
  {
    if rows == [] then [] else [Entry(rows[0], connection)] + Labelled(rows[1..], connection)
  }

  predicate EntryUnwatched(e: Entry)
  {
    IsUnwatched(e.row)
  }

  predicate EntryVideogame(e: Entry)
  {
    IsVideogame(e.row)
  }

  predicate NotVideogame(t: Title)
  {
    !IsVideogame(t)
  }

  // ---------------------------------------------------------------------------
  // The continuation chase (the inner while loop)
  // ---------------------------------------------------------------------------

  /** The connection rows gathered so far, with the searched list and the trace. */
  datatype Gathered = Gathered(rows: seq<Entry>, searched: seq<string>, trace: seq<Event>)

  /**
   * While fewer than `n` rows are gathered, ask for the 'followed by' links of the
   * last gathered row, mark them searched and append the catalog rows they name;
   * stop at a continuation that names no catalog row.
   */
  function Chase(content: seq<Title>, p: Provider, n: nat, caption: string, g: Gathered): (r: Gathered)
    requires |g.rows| > 0
    decreases n - |g.rows|
  {
    if |g.rows| >= n then g
    else
      var lastTconst := g.rows[|g.rows| - 1].row.tconst;
      var missed := p.batch(lastTconst, FollowedBy);
      var searched := g.searched + missed;
      var trace := g.trace + [BatchCall(lastTconst, FollowedBy)];
      var missedRows := Lookup(content, missed);
      if |missedRows| == 0 then Gathered(g.rows, searched, trace)
      else Chase(content, p, n, caption, Gathered(g.rows + Labelled(missedRows, Some(caption)), searched, trace))
  }

  // ---------------------------------------------------------------------------
  // One seed (the body of the outer for loop)
  // ---------------------------------------------------------------------------

  /** The seed's group under construction (`mini_df`), with the searched list and the trace. */
  datatype SeedState = SeedState(group: seq<Entry>, searched: seq<string>, trace: seq<Event>)

  /** One iteration of `for ct in connection_types`. */
  function ExpandDir(content: seq<Title>, p: Provider, seed: string, seedTitle: string, d: Direction, s: SeedState): (r: SeedState)
  {
    var trace := s.trace + [CountCall(seed, d)];
    if p.count(seed, d) == 0 then SeedState(s.group, s.searched, trace)
    else
      var g := DirRows(content, p, seed, seedTitle, d, s.searched, trace);
      var unwatched := Seqs.Filter(g.rows, EntryUnwatched);
      SeedState(if |unwatched| > 0 then s.group + unwatched else s.group, g.searched, g.trace)
  }

  /**
   * The rows named by the seed's own batch in direction `d`, labelled with the
   * connection caption and, when there are any, extended by the continuation chase.
   */
  function DirRows(content: seq<Title>, p: Provider, seed: string, seedTitle: string, d: Direction,
                   searched: seq<string>, trace: seq<Event>): Gathered
  {
    var ids := p.batch(seed, d);
    var caption := Label(d, seedTitle, seed);
    var rows := Labelled(Lookup(content, ids), Some(caption));
    var start := Gathered(rows, searched + ids, trace + [BatchCall(seed, d)]);
    if |rows| != 0 then Chase(content, p, p.count(seed, d), caption, start) else start
  }

  /** The first `k` directions applied in order. */
  function ExpandDirs(content: seq<Title>, p: Provider, seed: string, seedTitle: string, k: nat, s: SeedState): SeedState
    requires k <= |Directions|
  {
    if k == 0 then s
    else ExpandDir(content, p, seed, seedTitle, Directions[k - 1], ExpandDirs(content, p, seed, seedTitle, k - 1, s))
  }

  /** `sort_values(['startYear', 'index'])` compares rows by start year, then by index label. */
  predicate YearIndexLe(a: Entry, b: Entry)
  {
    a.row.startYear < b.row.startYear || (a.row.startYear == b.row.startYear && a.row.index <= b.row.index)
  }

  predicate SortedByYearIndex(g: seq<Entry>)
  {
    forall i, j :: 0 <= i < j < |g| ==> YearIndexLe(g[i], g[j])
  }

  /** Insert `e` into a group after every row that does not come later than it. */
  function InsertByYearIndex(e: Entry, s: seq<Entry>): seq<Entry>
    decreases |s|
  {
    if s == [] then [e]
    else if !YearIndexLe(s[0], e) then [e] + s
    else [s[0]] + InsertByYearIndex(e, s[1..])
  }

  /** Insertion adds exactly `e`, and keeps a sorted group sorted. */
  lemma InsertByYearIndexSpec(e: Entry, s: seq<Entry>)
    ensures multiset(InsertByYearIndex(e, s)) == multiset(s) + multiset{e}
    ensures SortedByYearIndex(s) ==> SortedByYearIndex(InsertByYearIndex(e, s))
  {
    InsertByYearIndexMultiset(e, s);
    if SortedByYearIndex(s) {
      InsertByYearIndexSorted(e, s);
    }
  }

  lemma {:induction false} InsertByYearIndexMultiset(e: Entry, s: seq<Entry>)
    ensures multiset(InsertByYearIndex(e, s)) == multiset(s) + multiset{e}
    decreases |s|
  {
    if s != [] && YearIndexLe(s[0], e) {
      InsertByYearIndexMultiset(e, s[1..]);
      assert s == [s[0]] + s[1..];
    }
  }

  lemma {:induction false} InsertByYearIndexSorted(e: Entry, s: seq<Entry>)
    requires SortedByYearIndex(s)
    ensures SortedByYearIndex(InsertByYearIndex(e, s))
    decreases |s|
  {
    if s != [] {
      if YearIndexLe(s[0], e) {
        var rest := InsertByYearIndex(e, s[1..]);
        InsertByYearIndexSorted(e, s[1..]);
        InsertByYearIndexMultiset(e, s[1..]);
        forall x | x in rest ensures YearIndexLe(s[0], x) {
          assert x in multiset(rest);
          if x != e {
            assert x in s[1..];
          }
        }
        SortedCons(s[0], rest);
      } else {
        SortedCons(e, s);
      }
    }
  }

  /** A row no later than any row of a sorted group can go in front of it. */
  lemma SortedCons(x: Entry, s: seq<Entry>)
    requires SortedByYearIndex(s)
    requires forall y :: y in s ==> YearIndexLe(x, y)
    ensures SortedByYearIndex([x] + s)
  {
    forall i, j | 0 <= i < j < |[x] + s| ensures YearIndexLe(([x] + s)[i], ([x] + s)[j]) {
      if i > 0 {
        assert ([x] + s)[i] == s[i - 1];
      }
      assert ([x] + s)[j] == s[j - 1];
    }
  }

  /** The group ordered by (startYear, index), stably: insertion of each row in turn. */
  function SortByYearIndex(g: seq<Entry>): seq<Entry>
    decreases |g|
  {
    if g == [] then [] else InsertByYearIndex(g[|g| - 1], SortByYearIndex(g[..|g| - 1]))
  }

  /** `sort_values` leaves the group sorted by (startYear, index) and rearranges its rows without adding or losing any. */
  lemma {:induction false} SortByYearIndexSpec(g: seq<Entry>)
    ensures SortedByYearIndex(SortByYearIndex(g))
    ensures multiset(SortByYearIndex(g)) == multiset(g)
    decreases |g|
  {
    if g != [] {
      assert g == g[..|g| - 1] + [g[|g| - 1]];
      SortByYearIndexSpec(g[..|g| - 1]);
      InsertByYearIndexSpec(g[|g| - 1], SortByYearIndex(g[..|g| - 1]));
    }
  }

  /** What a group adds to `num_titles`: its unwatched rows minus its videogame rows. */
  function Contribution(group: seq<Entry>): int
  {
    Seqs.Count(group, EntryUnwatched) - Seqs.Count(group, EntryVideogame)
  }

  /** The resolver's state between seeds: `searched_tconsts`, the trace, `mini_dfs` and `num_titles`. */
  datatype RunState = RunState(searched: seq<string>, trace: seq<Event>, groups: seq<seq<Entry>>, count: int)

  /** The seed's own rows of `content_subset` (`content_subset.loc[content_subset['tconst'] == tconst]`). */
  function SeedRows(subset: seq<Title>, seed: string): seq<Title>
  {
    Lookup(subset, [seed])
  }

  /** The group a seed starts with, before any direction is expanded. */
  function SeedStart(subset: seq<Title>, seed: string, st: RunState): SeedState
  {
    SeedState(Labelled(SeedRows(subset, seed), None), st.searched + [seed], st.trace + [Seeded(seed)])
  }

  /**
   * Expanding a seed: mark it searched, expand both directions, and emit its group
   * sorted by (startYear, index) when some row in it is unwatched. The flag tells
   * whether a group was emitted.
   */
  function ProcessSeed(content: seq<Title>, subset: seq<Title>, p: Provider, seed: string, st: RunState): (RunState, bool)
    requires SeedRows(subset, seed) != []
  {
    var seedTitle := SeedRows(subset, seed)[0].originalTitle;
    Emit(st, ExpandDirs(content, p, seed, seedTitle, |Directions|, SeedStart(subset, seed, st)))
  }

  /** Emit the expanded group, sorted, when some row in it is unwatched, and add its contribution to the count. */
  function Emit(st: RunState, s: SeedState): (RunState, bool)
  {
    if Seqs.Any(s.group, EntryUnwatched) then
      var sorted := SortByYearIndex(s.group);
      (RunState(s.searched, s.trace, st.groups + [sorted], st.count + Contribution(sorted)), true)
    else
      (RunState(s.searched, s.trace, st.groups, st.count), false)
  }

  // ---------------------------------------------------------------------------
  // The whole walk (get_ordered_connections)
  // ---------------------------------------------------------------------------

  /** `content_subset`: the catalog without videogames when they are excluded. */
  function Subset(content: seq<Title>, excludeVideogames: bool): (r: seq<Title>)
    ensures excludeVideogames ==> forall t :: t in r <==> t in content && !IsVideogame(t)
    ensures excludeVideogames ==> Seqs.IsSubsequence(r, content)
    ensures excludeVideogames ==> forall t :: multiset(r)[t] == if IsVideogame(t) then 0 else multiset(content)[t]
    ensures !excludeVideogames ==> r == content
  {
    if excludeVideogames then Seqs.Filter(content, NotVideogame) else content
  }

  /** The state after the first `k` titles of the subset, and the index at which the quota stopped the walk, if it did. */
  datatype Progress = Progress(state: RunState, stoppedAt: Option<nat>)

  /** The progress after one title was expanded as a seed: the stop index is set when it emitted and met the quota. */
  function Advance(quota: int, j: nat, out: (RunState, bool)): Progress
  {
    Progress(out.0, if out.1 && out.0.count >= quota then Some(j) else None)
  }

  /**
   * The outer loop over the first `k` titles of the subset, for a given seed step:
   * skip a title already searched, expand any other, and stop at the quota.
   */
  function Walk(subset: seq<Title>, quota: int, step: (string, RunState) -> (RunState, bool), k: nat): (r: Progress)
    requires k <= |subset|
    ensures r.stoppedAt.Some? ==> r.stoppedAt.value < k
  {
    if k == 0 then Progress(RunState([], [], [], 0), None)
    else
      var prev := Walk(subset, quota, step, k - 1);
      if prev.stoppedAt.Some? then prev
      else if subset[k - 1].tconst in prev.state.searched then prev
      else Advance(quota, k - 1, step(subset[k - 1].tconst, prev.state))
  }

  /** The resolver's seed step. Every title the walk reaches has its own row, so the second branch is never taken. */
  function SeedStep(content: seq<Title>, subset: seq<Title>, p: Provider): (string, RunState) -> (RunState, bool)
  {
    (seed: string, st: RunState) =>
      if SeedRows(subset, seed) != [] then ProcessSeed(content, subset, p, seed, st) else (st, false)
  }

  /** The state after the first `k` titles of the subset. */
  function Run(content: seq<Title>, subset: seq<Title>, quota: int, p: Provider, k: nat): Progress
    requires k <= |subset|
  {
    Walk(subset, quota, SeedStep(content, subset, p), k)
  }

  lemma SeedRowsOfMember(subset: seq<Title>, k: nat)
    requires k < |subset|
    ensures SeedRows(subset, subset[k].tconst) != []
    decreases k
  {
    if k > 0 {
      SeedRowsOfMember(subset[1..], k - 1);
    }
  }

  /** The rows of all groups, in order (`pd.concat(mini_dfs)`). */
  function Flatten(groups: seq<seq<Entry>>): seq<Entry>
    decreases |groups|
  {
    if groups == [] then [] else Flatten(groups[..|groups| - 1]) + groups[|groups| - 1]
  }

  /** The row carries a `connection` cell, so the concatenated table has that column. */
  predicate IsConnection(e: Entry)
  {
    e.connection.Some?
  }

  /** Raised by `pd.concat` on an empty list of groups. */
  const NoObjectsToConcatenate := "ValueError: No objects to concatenate"

  /** Raised by the column selection when no concatenated group has a `connection` column. */
  const ConnectionNotInIndex := "KeyError: ['connection'] not in index"

  /** The end of `get_ordered_connections`: concatenate the groups and select the columns of interest. */
  function Concatenate(groups: seq<seq<Entry>>, last: int): Result<(seq<Entry>, int)>
  {
    if groups == [] then Err(NoObjectsToConcatenate)
    else if !Seqs.Any(Flatten(groups), IsConnection) then Err(ConnectionNotInIndex)
    else Ok((Flatten(groups), last))
  }

  /**
   * What `get_ordered_connections` returns (the ordered rows and the last enumerated
   * index) or the exception it raises, with the trace of the queries made before.
   */
  datatype Resolution = Resolution(outcome: Result<(seq<Entry>, int)>, trace: seq<Event>)

  function Resolve(content: seq<Title>, numContentToDisplay: int, excludeVideogames: bool, p: Provider): Resolution
  {
    var subset := Subset(content, excludeVideogames);
    var r := Run(content, subset, numContentToDisplay, p, |subset|);
    Resolution(Concatenate(r.state.groups, if r.stoppedAt.Some? then r.stoppedAt.value else |subset| - 1), r.state.trace)
  }

  // ---------------------------------------------------------------------------
  // The resolver as the program runs it
  // ---------------------------------------------------------------------------

  /** One iteration of `for ct in connection_types`, with its continuation chase. */
  method ExpandDirection(content: seq<Title>, p: Provider, seed: string, seedTitle: string, d: Direction,
                         miniDf: seq<Entry>, searched: seq<string>, ghost trace: seq<Event>)
    returns (miniDf': seq<Entry>, searched': seq<string>, ghost trace': seq<Event>)
    ensures var r := ExpandDir(content, p, seed, seedTitle, d, SeedState(miniDf, searched, trace));
            miniDf' == r.group && searched' == r.searched
    ensures trace' == ExpandDir(content, p, seed, seedTitle, d, SeedState(miniDf, searched, trace)).trace
  {
    miniDf', searched' := miniDf, searched;
    var numConnections := p.count(seed, d);
    trace' := trace + [CountCall(seed, d)];
    if numConnections != 0 {
      var connectionTconsts := p.batch(seed, d);
      searched' := searched' + connectionTconsts;
      trace' := trace' + [BatchCall(seed, d)];
      var caption := Label(d, seedTitle, seed);
      var connectionRows := Labelled(Lookup(content, connectionTconsts), Some(caption));
      if |connectionRows| != 0 {
        ghost var start := Gathered(connectionRows, searched', trace');
        while |connectionRows| < numConnections
          invariant |connectionRows| > 0
          invariant Chase(content, p, numConnections, caption, start) ==
                    Chase(content, p, numConnections, caption, Gathered(connectionRows, searched', trace'))
          decreases numConnections - |connectionRows|
        {
          var lastTconst := connectionRows[|connectionRows| - 1].row.tconst;
          var missedConnectionTconsts := p.batch(lastTconst, FollowedBy);
          searched' := searched' + missedConnectionTconsts;
          trace' := trace' + [BatchCall(lastTconst, FollowedBy)];
          var missedConnectionRows := Lookup(content, missedConnectionTconsts);
          if |missedConnectionRows| == 0 {
            break;
          }
          connectionRows := connectionRows + Labelled(missedConnectionRows, Some(caption));
        }
      }
      var unwatched := Seqs.Filter(connectionRows, EntryUnwatched);
      if |unwatched| > 0 {
        miniDf' := miniDf' + unwatched;
      }
    }
  }

  /**
   * The body of the outer loop for a title not yet searched: mark it searched,
   * expand both directions, and emit its group sorted by (startYear, index) when
   * some row in it is unwatched, adding the group's contribution to the count.
   */
  method SearchSeed(content: seq<Title>, contentSubset: seq<Title>, p: Provider, tconst: string,
                    searchedTconsts: seq<string>, ghost trace: seq<Event>, miniDfs: seq<seq<Entry>>, numTitles: int)
    returns (searchedTconsts': seq<string>, ghost trace': seq<Event>, miniDfs': seq<seq<Entry>>, numTitles': int, emitted: bool)
    requires SeedRows(contentSubset, tconst) != []
    ensures var (r, e) := ProcessSeed(content, contentSubset, p, tconst, RunState(searchedTconsts, trace, miniDfs, numTitles));
            searchedTconsts' == r.searched && miniDfs' == r.groups && numTitles' == r.count && emitted == e
    ensures trace' == ProcessSeed(content, contentSubset, p, tconst, RunState(searchedTconsts, trace, miniDfs, numTitles)).0.trace
  {
    ghost var before := RunState(searchedTconsts, trace, miniDfs, numTitles);
    var seedRows := SeedRows(contentSubset, tconst);
    var seedTitle := seedRows[0].originalTitle;
    var miniDf := Labelled(seedRows, None);
    searchedTconsts' := searchedTconsts + [tconst];
    trace' := trace + [Seeded(tconst)];
    var j := 0;
    while j < |Directions|
      invariant 0 <= j <= |Directions|
      invariant SeedState(miniDf, searchedTconsts', trace') ==
                ExpandDirs(content, p, tconst, seedTitle, j, SeedStart(contentSubset, tconst, before))
    {
      miniDf, searchedTconsts', trace' := ExpandDirection(content, p, tconst, seedTitle, Directions[j], miniDf, searchedTconsts', trace');
      j := j + 1;
    }
    miniDfs', numTitles', emitted := EmitGroup(miniDf, miniDfs, numTitles);
  }

  /** The end of the outer loop body: keep the group, sorted, if some row in it is unwatched, and count it. */
  method EmitGroup(miniDf: seq<Entry>, miniDfs: seq<seq<Entry>>, numTitles: int)
    returns (miniDfs': seq<seq<Entry>>, numTitles': int, emitted: bool)
    ensures forall searched, trace :: (RunState(searched, trace, miniDfs', numTitles'), emitted) ==
              Emit(RunState(searched, trace, miniDfs, numTitles), SeedState(miniDf, searched, trace))
  {
    miniDfs', numTitles', emitted := miniDfs, numTitles, false;
    if Seqs.Any(miniDf, EntryUnwatched) {
      var sorted := SortByYearIndex(miniDf);
      miniDfs' := miniDfs + [sorted];
      numTitles' := numTitles + (Seqs.Count(sorted, EntryUnwatched) - Seqs.Count(sorted, EntryVideogame));
      emitted := true;
    }
  }

  /**
   * `get_ordered_connections`: walk the subset in order, expand every title not yet
   * searched, emit its group when it has an unwatched row, and stop once the count
   * of unwatched non-videogame rows reaches `numContentToDisplay`.
   */
  method GetOrderedConnections(content: seq<Title>, numContentToDisplay: int, excludeVideogames: bool, p: Provider)
    returns (result: Result<(seq<Entry>, int)>, ghost trace: seq<Event>)
    ensures result == Resolve(content, numContentToDisplay, excludeVideogames, p).outcome
    ensures trace == Resolve(content, numContentToDisplay, excludeVideogames, p).trace
  {
    var contentSubset := if excludeVideogames then Seqs.Filter(content, NotVideogame) else content;
    assert contentSubset == Subset(content, excludeVideogames);
    var miniDfs, stop;
    var numTitles, searchedTconsts, i;
    searchedTconsts, trace, miniDfs, numTitles, i, stop := WalkSubset(content, contentSubset, numContentToDisplay, p);
    ResolveOf(content, numContentToDisplay, excludeVideogames, p,
              Progress(RunState(searchedTconsts, trace, miniDfs, numTitles), if stop then Some(i) else None));
    if miniDfs == [] {
      result := Err(NoObjectsToConcatenate);
    } else {
      var connectionsOrdered := Flatten(miniDfs);
      if Seqs.Any(connectionsOrdered, IsConnection) {
        result := Ok((connectionsOrdered, i));
      } else {
        result := Err(ConnectionNotInIndex);
      }
    }
  }

  /**
   * The outer loop of `get_ordered_connections` over `content_subset`: `i` is the
   * last index visited, and `stop` says the quota broke the loop there.
   */
  method WalkSubset(content: seq<Title>, contentSubset: seq<Title>, numContentToDisplay: int, p: Provider)
    returns (searchedTconsts: seq<string>, ghost trace: seq<Event>, miniDfs: seq<seq<Entry>>, numTitles: int, i: int, stop: bool)
    ensures stop ==> 0 <= i < |contentSubset|
    ensures !stop ==> i == |contentSubset| - 1
    ensures Run(content, contentSubset, numContentToDisplay, p, |contentSubset|) ==
            Progress(RunState(searchedTconsts, trace, miniDfs, numTitles), if stop then Some(i) else None)
  {
    miniDfs := [];
    searchedTconsts := [];
    trace := [];
    numTitles := 0;
    i := -1;
    stop := false;
    var k := 0;
    while k < |contentSubset|
      invariant 0 <= k <= |contentSubset| && i == k - 1
      invariant Run(content, contentSubset, numContentToDisplay, p, k) ==
                Progress(RunState(searchedTconsts, trace, miniDfs, numTitles), None)
    {
      i := k;
      searchedTconsts, trace, miniDfs, numTitles, stop :=
        VisitTitle(content, contentSubset, numContentToDisplay, p, k, searchedTconsts, trace, miniDfs, numTitles);
      if stop {
        WalkStaysStopped(contentSubset, numContentToDisplay, SeedStep(content, contentSubset, p), k + 1, |contentSubset|);
        return;
      }
      k := k + 1;
    }
  }

  /**
   * One iteration of `for i in range(len(content_subset))`: a title not yet searched
   * is expanded as a seed; `stop` says the quota was reached and the loop breaks.
   */
  method VisitTitle(content: seq<Title>, contentSubset: seq<Title>, numContentToDisplay: int, p: Provider, k: nat,
                    searchedTconsts: seq<string>, ghost trace: seq<Event>, miniDfs: seq<seq<Entry>>, numTitles: int)
    returns (searchedTconsts': seq<string>, ghost trace': seq<Event>, miniDfs': seq<seq<Entry>>, numTitles': int, stop: bool)
    requires k < |contentSubset|
    requires Run(content, contentSubset, numContentToDisplay, p, k) ==
             Progress(RunState(searchedTconsts, trace, miniDfs, numTitles), None)
    ensures var r := Run(content, contentSubset, numContentToDisplay, p, k + 1);
            searchedTconsts' == r.state.searched && miniDfs' == r.state.groups && numTitles' == r.state.count &&
            r.stoppedAt == (if stop then Some(k) else None)
    ensures trace' == Run(content, contentSubset, numContentToDisplay, p, k + 1).state.trace
  {
    searchedTconsts', trace', miniDfs', numTitles', stop := searchedTconsts, trace, miniDfs, numTitles, false;
    var tconst := contentSubset[k].tconst;
    if tconst !in searchedTconsts {
      RunSeedStep(content, contentSubset, numContentToDisplay, p, k, RunState(searchedTconsts, trace, miniDfs, numTitles));
      var emitted;
      searchedTconsts', trace', miniDfs', numTitles', emitted :=
        SearchSeed(content, contentSubset, p, tconst, searchedTconsts, trace, miniDfs, numTitles);
      stop := emitted && numTitles' >= numContentToDisplay;
    } else {
      WalkSkipStep(contentSubset, numContentToDisplay, SeedStep(content, contentSubset, p), k);
    }
  }

  /** The resolution read off the walk's final progress. */
  lemma ResolveOf(content: seq<Title>, numContentToDisplay: int, excludeVideogames: bool, p: Provider, r: Progress)
    requires var subset := Subset(content, excludeVideogames); r == Run(content, subset, numContentToDisplay, p, |subset|)
    ensures Resolve(content, numContentToDisplay, excludeVideogames, p) ==
            Resolution(Concatenate(r.state.groups, if r.stoppedAt.Some? then r.stoppedAt.value
                                                   else |Subset(content, excludeVideogames)| - 1), r.state.trace)
  {
  }

  /** A title not yet searched is processed as a seed. */
  lemma RunSeedStep(content: seq<Title>, subset: seq<Title>, quota: int, p: Provider, k: nat, st: RunState)
    requires k < |subset| && Run(content, subset, quota, p, k) == Progress(st, None)
    requires subset[k].tconst !in st.searched
    ensures SeedRows(subset, subset[k].tconst) != []
    ensures Run(content, subset, quota, p, k + 1) == Advance(quota, k, ProcessSeed(content, subset, p, subset[k].tconst, st))
  {
    SeedRowsOfMember(subset, k);
  }

  /** A title already searched is passed over. */
  lemma WalkSkipStep(subset: seq<Title>, quota: int, step: (string, RunState) -> (RunState, bool), k: nat)
    requires k < |subset| && Walk(subset, quota, step, k).stoppedAt.None?
    requires subset[k].tconst in Walk(subset, quota, step, k).state.searched
    ensures Walk(subset, quota, step, k + 1) == Walk(subset, quota, step, k)
  {
  }

  /** Once the quota has stopped the walk, further titles change nothing. */
  lemma {:induction false} WalkStaysStopped(subset: seq<Title>, quota: int, step: (string, RunState) -> (RunState, bool), k: nat, m: nat)
    requires k <= m <= |subset|
    requires Walk(subset, quota, step, k).stoppedAt.Some?
    ensures Walk(subset, quota, step, m) == Walk(subset, quota, step, k)
    decreases m - k
  {
    if k < m {
      WalkStaysStopped(subset, quota, step, k, m - 1);
    }
  }

  /**
   * A property of the walk's progress that holds at the start and that every seed
   * step preserves holds after any number of titles.
   */
  lemma {:induction false} WalkInvariant(subset: seq<Title>, quota: int, step: (string, RunState) -> (RunState, bool), k: nat,
                                         inv: Progress -> bool)
    requires k <= |subset|
    requires inv(Progress(RunState([], [], [], 0), None))
    requires forall j, st :: 0 <= j < |subset| && inv(Progress(st, None)) && subset[j].tconst !in st.searched ==>
               inv(Advance(quota, j, step(subset[j].tconst, st)))
    ensures inv(Walk(subset, quota, step, k))
  {
    if k > 0 {
      WalkInvariant(subset, quota, step, k - 1, inv);
    }
  }
}
