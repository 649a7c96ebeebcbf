/**
 * The user-ratings scraper with its markup already read: each ratings page is
 * the text of its pagination caption plus, per listed title, the header link's
 * href and the text of the user's rating. Fetching a page is following the
 * site's "Next" links, so the pages are given in visiting order.
 */
module FetchingRatings {
  import opened Wrappers
  import opened PyStr

  datatype RatingEntry = RatingEntry(href: string, ratingText: string)

  datatype RatingsPage = RatingsPage(paginationRange: string, entries: seq<RatingEntry>)

  /** `first` is the page the first request returns; `rest[k]` is page `k + 2`, reached by `k + 1` "Next" links. */
  datatype RatingsSite = RatingsSite(first: RatingsPage, rest: seq<RatingsPage>)

  /** Ratings listed per page. */
  const PageSize: nat := 100

  function Pages(site: RatingsSite): (pages: seq<RatingsPage>)
    ensures |pages| >= 1 && pages[0] == site.first
  {
    [site.first] + site.rest
  }

  // ---------------------------------------------------------------------------
  // get_num_pages
  // ---------------------------------------------------------------------------

  /** The film count of a caption like '1 - 100 of 1,118': the text after the last 'of ', commas removed, as an int. */
  function NumFilms(paginationRange: string): Option<nat>
  {
    FilmCount(LastPiece(Split(Strip(paginationRange), "of ")))
  }

  /** `parts[-1]`. */
  function LastPiece(parts: seq<string>): string
    requires |parts| >= 1
  {
    parts[|parts| - 1]
  }

  /** `int(text.replace(',', ''))`, `None` where `int()` raises. */
  function FilmCount(text: string): Option<nat>
  {
    ParseInt(RemoveChar(text, ','))
  }

  /** `get_num_pages`: one page more than the number of whole hundreds of films; `None` where `int()` raises. */
  function NumPages(paginationRange: string): (r: Option<nat>)
    ensures r.Some? <==> NumFilms(paginationRange).Some?
    ensures r.Some? ==> r.value >= 1
    ensures r.Some? ==> (r.value - 1) * PageSize <= NumFilms(paginationRange).value < r.value * PageSize
  {
    match NumFilms(paginationRange)
    case None => None
    case Some(numFilms) => Some(1 + numFilms / PageSize)
  }

  predicate IsCountText(t: string)
  {
    (forall k :: 0 <= k < |t| ==> IsDigit(t[k]) || t[k] == ',') && (exists k :: 0 <= k < |t| && IsDigit(t[k]))
  }

  /**
   * A caption `a + "of " + t` padded with whitespace on both sides, with `t` digits
   * and thousands commas, gives the value of `t`'s digits.
   */
  lemma NumFilmsOfCaption(ws1: string, a: string, t: string, ws2: string)
    requires AllSpace(ws1) && AllSpace(ws2)
    requires a == [] || !IsSpace(a[0])
    requires IsCountText(t)
    ensures IsDigits(RemoveChar(t, ','))
    ensures NumFilms(ws1 + a + "of " + t + ws2) == Some(DigitsValue(RemoveChar(t, ',')))
  {
    CaptionLastPiece(ws1, a, t, ws2);
    FilmCountOfCountText(t);
  }

  /** Stripping such a caption leaves `a + "of " + t`, whose last "of "-piece is the count text. */
  lemma CaptionLastPiece(ws1: string, a: string, t: string, ws2: string)
    requires AllSpace(ws1) && AllSpace(ws2)
    requires a == [] || !IsSpace(a[0])
    requires IsCountText(t)
    ensures Strip(ws1 + a + "of " + t + ws2) == a + "of " + t
    ensures LastPiece(Split(Strip(ws1 + a + "of " + t + ws2), "of ")) == t
  {
    CaptionStrip(ws1, a, t, ws2);
    CaptionSeparatorOnce(a, t);
    SplitLastPiece(a, "of ", t);
  }

  lemma CaptionStrip(ws1: string, a: string, t: string, ws2: string)
    requires AllSpace(ws1) && AllSpace(ws2)
    requires a == [] || !IsSpace(a[0])
    requires IsCountText(t)
    ensures Strip(ws1 + a + "of " + t + ws2) == a + "of " + t
  {
    var s := a + "of " + t;
    CaptionHasNoEdgeSpace(a, t);
    assert ws1 + a + "of " + t + ws2 == ws1 + s + ws2;
    StripPadded(ws1, s, ws2);
  }

  lemma FilmCountOfCountText(t: string)
    requires IsCountText(t)
    ensures IsDigits(RemoveChar(t, ','))
    ensures FilmCount(t) == Some(DigitsValue(RemoveChar(t, ',')))
  {
    CountTextDigits(t);
    StripNoSpaceEdges(RemoveChar(t, ','));
  }

  lemma CaptionHasNoEdgeSpace(a: string, t: string)
    requires a == [] || !IsSpace(a[0])
    requires IsCountText(t)
    ensures var s := a + "of " + t; !IsSpace(s[0]) && !IsSpace(s[|s| - 1])
  {
    var s := a + "of " + t;
    assert s[|s| - 1] == t[|t| - 1];
    assert s[0] == if a == [] then 'o' else a[0];
  }

  /** In a caption `a + "of " + t` the left-to-right scan for "of " cuts right before `t` and nowhere after. */
  lemma CaptionSeparatorOnce(a: string, t: string)
    requires IsCountText(t)
    ensures forall j :: |a| - 3 < j < |a| ==> !Occurs(a + "of " + t, "of ", j)
    ensures forall j :: j > |a| ==> !Occurs(a + "of " + t, "of ", j)
  {
    var s := a + "of " + t;
    assert s[|a|] == 'o' && s[|a| + 1] == 'f' && s[|a| + 2] == ' ';
    forall j | |a| - 3 < j < |a| && 0 <= j && j + 3 <= |s| ensures !Occurs(s, "of ", j) {
      assert s[j..j + 3][|a| - j] == s[|a|];
    }
    forall j | j > |a| && j + 3 <= |s| ensures !Occurs(s, "of ", j) {
      assert s[j..j + 3][0] == s[j];
      if j > |a| + 2 { assert s[j] == t[j - |a| - 3]; }
    }
  }

  lemma CountTextDigits(t: string)
    requires IsCountText(t)
    ensures RemoveChar(t, ',') != [] && IsDigits(RemoveChar(t, ','))
  {
    var digits := RemoveChar(t, ',');
    RemoveCharSpec(t, ',');
    var k :| 0 <= k < |t| && IsDigit(t[k]);
    assert t[k] in t && t[k] != ',';
    assert multiset(digits)[t[k]] == multiset(t)[t[k]] > 0;
    forall i | 0 <= i < |digits| ensures IsDigit(digits[i]) {
      var d := digits[i];
      assert d in multiset(digits) && d != ',';
      assert d in multiset(t);
      var j :| 0 <= j < |t| && t[j] == d;
    }
  }

  // ---------------------------------------------------------------------------
  // get_next_page
  // ---------------------------------------------------------------------------

  /**
   * `get_next_page`: follow the current page's "Next" link. `Err` where the page
   * has no such link and the lookup of its href fails.
   */
  function GetNextPage(currentNumPage: nat, site: RatingsSite): (r: Result<(nat, RatingsPage)>)
    requires currentNumPage >= 1
    ensures r.Ok? <==> currentNumPage < |Pages(site)|
    ensures r.Ok? ==> r.value.0 == currentNumPage + 1 && r.value.1 == Pages(site)[r.value.0 - 1]
  {
    if currentNumPage - 1 < |site.rest| then Ok((currentNumPage + 1, site.rest[currentNumPage - 1]))
    else Err("TypeError: no next-page link")
  }

  // ---------------------------------------------------------------------------
  // extract_info
  // ---------------------------------------------------------------------------

  /** `href.split('/')[-2]`: the second-to-last '/'-piece; `None` where Python raises IndexError. */
  function TconstOf(href: string): (r: Option<string>)
    ensures r.Some? <==> |Split(href, "/")| >= 2
  {
    var parts := Split(href, "/");
    if |parts| < 2 then None else Some(parts[|parts| - 2])
  }

  /** A title link '/title/<tconst>/' gives back its tconst. */
  lemma TconstOfTitleLink(t: string)
    requires '/' !in t
    ensures TconstOf("/title/" + t + "/") == Some(t)
  {
    assert '/' !in "title" by {
      assert "title" == ['t', 'i', 't', 'l', 'e'];
    }
    SplitLink("title", t, '/');
    TitleLinkShape(t);
  }

  lemma TitleLinkShape(t: string)
    ensures "/title/" + t + "/" == ['/'] + ("title" + ['/'] + (t + ['/']))
  {
  }

  /** A link `c w c t c` splits on `c` into "", w, t, "". */
  lemma SplitLink(w: string, t: string, c: char)
    requires c !in w && c !in t
    ensures Split([c] + (w + [c] + (t + [c])), [c]) == [[], w, t, []]
  {
    SplitTwoPieces(w, t, c);
    SplitOnChar([], w + [c] + (t + [c]), c);
  }

  lemma SplitTwoPieces(w: string, t: string, c: char)
    requires c !in w && c !in t
    ensures Split(w + [c] + (t + [c]), [c]) == [w, t, []]
  {
    SplitOnePiece(t, c);
    SplitOnChar(w, t + [c], c);
  }

  lemma SplitOnePiece(t: string, c: char)
    requires c !in t
    ensures Split(t + [c], [c]) == [t, []]
  {
    SplitOnChar(t, [], c);
    assert t + [c] + [] == t + [c];
    assert Split([], [c]) == [[]];
  }

  /** The result of one listed title: its tconst and the user's rating, or the exception it raises. */
  function ExtractEntry(e: RatingEntry): Result<(string, nat)>
  {
    match TconstOf(e.href)
    case None => Err("IndexError: href has no second-to-last '/' piece")
    case Some(tconst) =>
      match ParseInt(e.ratingText)
      case None => Err("ValueError: rating is not an int")
      case Some(rating) => Ok((tconst, rating))
  }

  /** The dictionary `extract_info` builds: each entry, in order, sets its tconst's rating. */
  function Extracted(entries: seq<RatingEntry>): Result<map<string, nat>>
  {
    Assigned(entries, ExtractEntry)
  }

  /**
   * A dictionary filled by assigning, entry after entry, the key/value pair that
   * `f` extracts from it; the first entry on which `f` fails aborts the whole.
   */
  function Assigned<E>(entries: seq<E>, f: E -> Result<(string, nat)>): Result<map<string, nat>>
    decreases |entries|
  {
    if entries == [] then Ok(map[])
    else AssignInto(Assigned(entries[..|entries| - 1], f), f(entries[|entries| - 1]))
  }

  /** `d[key] = value` for an extracted pair, or the exception raised while extracting it. */
  function AssignInto(acc: Result<map<string, nat>>, kv: Result<(string, nat)>): (r: Result<map<string, nat>>)
    ensures r.Ok? <==> acc.Ok? && kv.Ok?
    ensures r.Ok? ==> kv.value.0 in r.value && r.value[kv.value.0] == kv.value.1
    ensures r.Ok? ==> forall key :: key != kv.value.0 ==> (key in r.value <==> key in acc.value)
    ensures r.Ok? ==> forall key :: key != kv.value.0 && key in acc.value ==> r.value[key] == acc.value[key]
  {
    match acc
    case Err(_) => acc
    case Ok(m) =>
      match kv
      case Err(err) => Err(err)
      case Ok(kv) => Ok(m[kv.0 := kv.1])
  }

  /** `extract_info`: fill the dictionary entry by entry. */
  method ExtractInfo(entries: seq<RatingEntry>) returns (r: Result<map<string, nat>>)
    ensures r == Extracted(entries)
  {
    var tconstAndRatings: map<string, nat> := map[];
    var i := 0;
    while i < |entries|
      invariant 0 <= i <= |entries|
      invariant Assigned(entries[..i], ExtractEntry) == Ok(tconstAndRatings)
    {
      assert entries[..i + 1][..i] == entries[..i];
      var tconst := TconstOf(entries[i].href);
      if tconst.None? {
        r := Err("IndexError: href has no second-to-last '/' piece");
        AssignedErrPropagates(entries, ExtractEntry, i + 1);
        return;
      }
      var userRating := ParseInt(entries[i].ratingText);
      if userRating.None? {
        r := Err("ValueError: rating is not an int");
        AssignedErrPropagates(entries, ExtractEntry, i + 1);
        return;
      }
      tconstAndRatings := tconstAndRatings[tconst.value := userRating.value];
      i := i + 1;
    }
    assert entries[..i] == entries;
    r := Ok(tconstAndRatings);
  }

  /** Once a prefix raises, the whole list raises the same exception. */
  lemma {:induction false} AssignedErrPropagates<E>(entries: seq<E>, f: E -> Result<(string, nat)>, n: nat)
    requires n <= |entries| && Assigned(entries[..n], f).Err?
    ensures Assigned(entries, f) == Assigned(entries[..n], f)
    decreases |entries| - n
  {
    if n < |entries| {
      assert entries[..n + 1][..n] == entries[..n];
      AssignedErrPropagates(entries, f, n + 1);
    } else {
      assert entries[..n] == entries;
    }
  }

  /** Filling succeeds exactly when every entry can be extracted. */
  lemma {:induction false} AssignedOkIff<E>(entries: seq<E>, f: E -> Result<(string, nat)>)
    ensures Assigned(entries, f).Ok? <==> forall k :: 0 <= k < |entries| ==> f(entries[k]).Ok?
    decreases |entries|
  {
    if entries != [] {
      var init := entries[..|entries| - 1];
      AssignedOkIff(init, f);
      assert forall k :: 0 <= k < |init| ==> init[k] == entries[k];
    }
  }

  /** Some entry of `entries` yields `key`. */
  predicate Lists<E>(entries: seq<E>, f: E -> Result<(string, nat)>, key: string)
  {
    exists k :: 0 <= k < |entries| && f(entries[k]).Ok? && f(entries[k]).value.0 == key
  }

  /** A key is in the dictionary exactly when some entry yields it. */
  lemma {:induction false} AssignedKeys<E>(entries: seq<E>, f: E -> Result<(string, nat)>, key: string)
    requires Assigned(entries, f).Ok?
    ensures key in Assigned(entries, f).value <==> Lists(entries, f, key)
    decreases |entries|
  {
    if entries != [] {
      var init := entries[..|entries| - 1];
      AssignedKeys(init, f, key);
      assert entries == init + [entries[|entries| - 1]];
      if Lists(init, f, key) {
        var k :| 0 <= k < |init| && f(init[k]).Ok? && f(init[k]).value.0 == key;
        assert entries[k] == init[k];
      }
      if Lists(entries, f, key) {
        var k :| 0 <= k < |entries| && f(entries[k]).Ok? && f(entries[k]).value.0 == key;
        if k < |init| { assert init[k] == entries[k]; }
      }
    }
  }

  /** The value stored under a key is the one of the LAST entry yielding it: later entries overwrite earlier ones. */
  lemma {:induction false} AssignedLastWins<E>(entries: seq<E>, f: E -> Result<(string, nat)>, k: nat)
    requires Assigned(entries, f).Ok?
    requires k < |entries| && f(entries[k]).Ok?
    requires forall j :: k < j < |entries| && f(entries[j]).Ok? ==> f(entries[j]).value.0 != f(entries[k]).value.0
    ensures f(entries[k]).value.0 in Assigned(entries, f).value
    ensures Assigned(entries, f).value[f(entries[k]).value.0] == f(entries[k]).value.1
    decreases |entries|
  {
    var init := entries[..|entries| - 1];
    if k < |entries| - 1 {
      assert init[k] == entries[k];
      assert forall j :: k < j < |init| ==> init[j] == entries[j];
      AssignedLastWins(init, f, k);
    }
  }

  /** Filling from two lists one after the other and merging with `update` equals filling from their concatenation. */
  lemma {:induction false} AssignedAppend<E>(a: seq<E>, b: seq<E>, f: E -> Result<(string, nat)>)
    ensures Assigned(a + b, f) ==
      match Assigned(a, f)
      case Err(e) => Err(e)
      case Ok(ma) => (match Assigned(b, f) case Err(e) => Err(e) case Ok(mb) => Ok(ma + mb))
    decreases |b|
  {
    if b == [] {
      assert a + b == a;
      if Assigned(a, f).Ok? { assert Assigned(a, f).value + map[] == Assigned(a, f).value; }
    } else {
      var b' := b[..|b| - 1];
      assert (a + b)[..|a + b| - 1] == a + b';
      assert (a + b)[|a + b| - 1] == b[|b| - 1];
      AssignedAppend(a, b', f);
      if Assigned(a, f).Ok? && Assigned(b', f).Ok? {
        var ma: map<string, nat> := Assigned(a, f).value;
        var mb: map<string, nat> := Assigned(b', f).value;
        var e := f(b[|b| - 1]);
        if e.Ok? {
          assert (ma + mb)[e.value.0 := e.value.1] == ma + mb[e.value.0 := e.value.1];
        }
      }
    }
  }

  /** For the scraper's own extraction: a listed tconst's rating is the one of its last listing. */
  lemma ExtractedLastWins(entries: seq<RatingEntry>, tconst: string, k: nat)
    requires Extracted(entries).Ok?
    requires k < |entries| && TconstOf(entries[k].href) == Some(tconst)
    requires forall j :: k < j < |entries| ==> TconstOf(entries[j].href) != Some(tconst)
    ensures ParseInt(entries[k].ratingText).Some?
    ensures tconst in Extracted(entries).value
    ensures Extracted(entries).value[tconst] == ParseInt(entries[k].ratingText).value
  {
    AssignedOkIff(entries, ExtractEntry);
    assert ExtractEntry(entries[k]).Ok?;
    AssignedLastWins(entries, ExtractEntry, k);
  }

  // ---------------------------------------------------------------------------
  // get_user_ratings
  // ---------------------------------------------------------------------------

  /** The dictionary after pages `1..n` have been extracted and merged with `update`, `Err` if any step raises. */
  function MergedPages(site: RatingsSite, n: nat): Result<map<string, nat>>
    decreases n
  {
    if n == 0 then Ok(map[])
    else
      match MergedPages(site, n - 1)
      case Err(e) => Err(e)
      case Ok(acc) =>
        if n > |Pages(site)| then Err("TypeError: no next-page link")
        else
          match Extracted(Pages(site)[n - 1].entries)
          case Err(e) => Err(e)
          case Ok(m) => Ok(acc + m)
  }

  /** What `get_user_ratings` returns: pages `1..NumPages` merged, later pages overwriting earlier ones. */
  function UserRatings(site: RatingsSite): Result<map<string, nat>>
  {
    match NumPages(site.first.paginationRange)
    case None => Err("ValueError: film count is not an int")
    case Some(numPages) => MergedPages(site, numPages)
  }

  /** `get_user_ratings`: read the page count, then extract and merge page after page until the last one. */
  method GetUserRatings(site: RatingsSite) returns (r: Result<map<string, nat>>, ghost advances: nat)
    ensures r == UserRatings(site)
    ensures r.Ok? ==> advances + 1 == NumPages(site.first.paginationRange).value
  {
    advances := 0;
    var soup := site.first;
    var currentNumPage := 1;
    var pages := NumPages(soup.paginationRange);
    if pages.None? {
      r := Err("ValueError: film count is not an int");
      return;
    }
    var numPages := pages.value;
    var tconstAndRatings: map<string, nat> := map[];
    while currentNumPage <= numPages
      invariant 1 <= currentNumPage <= numPages && currentNumPage <= |Pages(site)|
      invariant soup == Pages(site)[currentNumPage - 1]
      invariant advances + 1 == currentNumPage
      invariant MergedPages(site, currentNumPage - 1) == Ok(tconstAndRatings)
      decreases numPages - currentNumPage
    {
      var merged := MergePage(site, currentNumPage, soup, tconstAndRatings);
      if merged.Err? {
        r := merged;
        MergedPagesErrPropagates(site, currentNumPage, numPages);
        return;
      }
      tconstAndRatings := merged.value;
      if currentNumPage == numPages {
        break;
      }
      var next := GetNextPage(currentNumPage, site);
      if next.Err? {
        r := Err(next.error);
        MergedPagesErrPropagates(site, currentNumPage + 1, numPages);
        return;
      }
      currentNumPage, soup := next.value.0, next.value.1;
      advances := advances + 1;
    }
    r := Ok(tconstAndRatings);
  }

  /** The top of the loop body: extract page `n` and start the dictionary with it, or update the dictionary. */
  method MergePage(site: RatingsSite, n: nat, soup: RatingsPage, acc: map<string, nat>)
    returns (merged: Result<map<string, nat>>)
    requires 1 <= n <= |Pages(site)| && soup == Pages(site)[n - 1]
    requires MergedPages(site, n - 1) == Ok(acc)
    ensures merged == MergedPages(site, n)
  {
    var extracted := ExtractInfo(soup.entries);
    if extracted.Err? {
      merged := Err(extracted.error);
      return;
    }
    MergedPagesStep(site, n, acc, extracted.value);
    if n == 1 {
      merged := Ok(extracted.value);
    } else {
      merged := Ok(acc + extracted.value);
    }
  }

  lemma MergedPagesStep(site: RatingsSite, n: nat, acc: map<string, nat>, m: map<string, nat>)
    requires 1 <= n <= |Pages(site)|
    requires MergedPages(site, n - 1) == Ok(acc)
    requires Extracted(Pages(site)[n - 1].entries) == Ok(m)
    ensures MergedPages(site, n) == Ok(acc + m)
    ensures n == 1 ==> acc == map[] && MergedPages(site, n) == Ok(m)
  {
    if n == 1 {
      assert acc + m == m;
    }
  }

  lemma {:induction false} MergedPagesErrPropagates(site: RatingsSite, n: nat, m: nat)
    requires n <= m && MergedPages(site, n).Err?
    ensures MergedPages(site, m) == MergedPages(site, n)
    decreases m - n
  {
    if n < m {
      MergedPagesErrPropagates(site, n + 1, m);
    }
  }

  /** All entries of the first `n` pages, in visiting order. */
  function EntriesOf(pages: seq<RatingsPage>): seq<RatingEntry>
    decreases |pages|
  {
    if pages == [] then [] else EntriesOf(pages[..|pages| - 1]) + pages[|pages| - 1].entries
  }

  /**
   * Merging page by page with `update` is the same as extracting all entries of
   * pages `1..n` in one pass, so across pages the latest rating of a tconst wins
   * (ExtractedLastWins); and it fails if fewer than `n` pages exist.
   */
  lemma MergedPagesIsOnePass(site: RatingsSite, n: nat)
    ensures n > |Pages(site)| ==> MergedPages(site, n).Err?
    ensures n <= |Pages(site)| ==> MergedPages(site, n) == Extracted(EntriesOf(Pages(site)[..n]))
  {
    if n > |Pages(site)| {
      MergedPagesPrefix(site, |Pages(site)|);
      MergedPagesBeyond(site, n);
    } else {
      MergedPagesPrefix(site, n);
    }
  }

  lemma {:induction false} MergedPagesPrefix(site: RatingsSite, n: nat)
    requires n <= |Pages(site)|
    ensures MergedPages(site, n) == Extracted(EntriesOf(Pages(site)[..n]))
  {
    if n > 0 {
      MergedPagesPrefix(site, n - 1);
      var pages := Pages(site)[..n];
      assert pages[..n - 1] == Pages(site)[..n - 1];
      AssignedAppend(EntriesOf(pages[..n - 1]), pages[n - 1].entries, ExtractEntry);
    } else {
      assert Pages(site)[..0] == [];
    }
  }

  /** Asking for more pages than exist fails. */
  lemma MergedPagesBeyond(site: RatingsSite, n: nat)
    requires n > |Pages(site)|
    ensures MergedPages(site, n).Err?
  {
    var last := |Pages(site)|;
    if MergedPages(site, last).Ok? {
      assert MergedPages(site, last + 1).Err?;
      MergedPagesErrPropagates(site, last + 1, n);
    } else {
      MergedPagesErrPropagates(site, last, n);
    }
  }

}
