/**
 * What the resolver guarantees, stated over its specification functions: which
 * ids end up searched, which titles become seeds, what a group holds, how the
 * count and the quota stop relate, and what the continuation chase asks for.
 */
module ConnectionsProperties {
  import opened Wrappers
  import opened Catalog
  import Seqs
  import opened FetchingConnections

  // ---------------------------------------------------------------------------
  // The searched list is what the trace made known
  // ---------------------------------------------------------------------------

  /** The ids an event makes known: a seed itself, or the ids a batch discloses. */
  function LearnedBy(p: Provider, e: Event): seq<string>
  {
    match e
    case Seeded(id) => [id]
    case CountCall(_, _) => []
    case BatchCall(id, d) => p.batch(id, d)
  }

  /** Every id the events of `trace` made known, in order. */
  function Learned(p: Provider, trace: seq<Event>): seq<string>
    decreases |trace|
  {
    if trace == [] then [] else Learned(p, trace[..|trace| - 1]) + LearnedBy(p, trace[|trace| - 1])
  }

  lemma LearnedSnoc(p: Provider, t: seq<Event>, e: Event)
    ensures Learned(p, t + [e]) == Learned(p, t) + LearnedBy(p, e)
  {
    assert (t + [e])[..|t|] == t;
  }

  /** What an event made known stays known. */
  lemma {:induction false} LearnedContains(p: Provider, t: seq<Event>, i: nat, x: string)
    requires i < |t| && x in LearnedBy(p, t[i])
    ensures x in Learned(p, t)
    decreases |t|
  {
    if i < |t| - 1 {
      assert t[..|t| - 1][i] == t[i];
      LearnedContains(p, t[..|t| - 1], i, x);
    }
  }

  lemma {:induction false} ChaseLearned(content: seq<Title>, p: Provider, n: nat, caption: string, g: Gathered)
    requires |g.rows| > 0 && g.searched == Learned(p, g.trace)
    ensures var r := Chase(content, p, n, caption, g); r.searched == Learned(p, r.trace)
    decreases n - |g.rows|
  {
    if |g.rows| < n {
      var lastTconst := g.rows[|g.rows| - 1].row.tconst;
      var missed := p.batch(lastTconst, FollowedBy);
      LearnedSnoc(p, g.trace, BatchCall(lastTconst, FollowedBy));
      var missedRows := Lookup(content, missed);
      if |missedRows| != 0 {
        ChaseLearned(content, p, n, caption,
          Gathered(g.rows + Labelled(missedRows, Some(caption)), g.searched + missed, g.trace + [BatchCall(lastTconst, FollowedBy)]));
      }
    }
  }

  lemma ExpandDirLearned(content: seq<Title>, p: Provider, seed: string, seedTitle: string, d: Direction, s: SeedState)
    requires s.searched == Learned(p, s.trace)
    ensures var r := ExpandDir(content, p, seed, seedTitle, d, s); r.searched == Learned(p, r.trace)
  {
    var trace := s.trace + [CountCall(seed, d)];
    LearnedSnoc(p, s.trace, CountCall(seed, d));
    if p.count(seed, d) != 0 {
      var ids := p.batch(seed, d);
      LearnedSnoc(p, trace, BatchCall(seed, d));
      var caption := Label(d, seedTitle, seed);
      var rows := Labelled(Lookup(content, ids), Some(caption));
      if |rows| != 0 {
        ChaseLearned(content, p, p.count(seed, d), caption, Gathered(rows, s.searched + ids, trace + [BatchCall(seed, d)]));
      }
    }
  }

  lemma {:induction false} ExpandDirsLearned(content: seq<Title>, p: Provider, seed: string, seedTitle: string, k: nat, s: SeedState)
    requires k <= |Directions| && s.searched == Learned(p, s.trace)
    ensures var r := ExpandDirs(content, p, seed, seedTitle, k, s); r.searched == Learned(p, r.trace)
  {
    if k > 0 {
      ExpandDirsLearned(content, p, seed, seedTitle, k - 1, s);
      ExpandDirLearned(content, p, seed, seedTitle, Directions[k - 1], ExpandDirs(content, p, seed, seedTitle, k - 1, s));
    }
  }

  lemma ProcessSeedLearned(content: seq<Title>, subset: seq<Title>, p: Provider, seed: string, st: RunState)
    requires SeedRows(subset, seed) != [] && st.searched == Learned(p, st.trace)
    ensures var r := ProcessSeed(content, subset, p, seed, st).0; r.searched == Learned(p, r.trace)
  {
    LearnedSnoc(p, st.trace, Seeded(seed));
    var seedTitle := SeedRows(subset, seed)[0].originalTitle;
    ExpandDirsLearned(content, p, seed, seedTitle, |Directions|, SeedStart(subset, seed, st));
  }

  /**
   * A property of the resolver's state that holds at the start and that expanding
   * any seed not yet searched preserves holds after any number of titles.
   */
  lemma RunKeeps(content: seq<Title>, subset: seq<Title>, quota: int, p: Provider, k: nat, inv: RunState -> bool)
    requires k <= |subset|
    requires inv(RunState([], [], [], 0))
    requires forall seed, st :: SeedRows(subset, seed) != [] && inv(st) && seed !in st.searched ==>
               inv(ProcessSeed(content, subset, p, seed, st).0)
    ensures inv(Run(content, subset, quota, p, k).state)
  {
    var step := SeedStep(content, subset, p);
    var pinv := (r: Progress) => inv(r.state);
    forall j, st | 0 <= j < |subset| && pinv(Progress(st, None)) && subset[j].tconst !in st.searched
      ensures pinv(Advance(quota, j, step(subset[j].tconst, st)))
    {
    }
    WalkInvariant(subset, quota, step, k, pinv);
  }

  /**
   * `searched_tconsts` is exactly the seeds and every id a batch disclosed,
   * first batches and continuations alike, in the order they were learned,
   * whether or not the catalog holds them.
   */
  lemma RunSearchedIsLearned(content: seq<Title>, subset: seq<Title>, quota: int, p: Provider, k: nat)
    requires k <= |subset|
    ensures var st := Run(content, subset, quota, p, k).state; st.searched == Learned(p, st.trace)
  {
    var inv := (st: RunState) => st.searched == Learned(p, st.trace);
    forall seed, st | SeedRows(subset, seed) != [] && inv(st) && seed !in st.searched
      ensures inv(ProcessSeed(content, subset, p, seed, st).0)
    {
      ProcessSeedLearned(content, subset, p, seed, st);
    }
    RunKeeps(content, subset, quota, p, k, inv);
  }

  // ---------------------------------------------------------------------------
  // What the resolver asks the provider
  // ---------------------------------------------------------------------------

  /** `u` starts with `t`. */
  ghost predicate Extends<T>(t: seq<T>, u: seq<T>)
  {
    |t| <= |u| && u[..|t|] == t
  }

  lemma ExtendsTrans<T>(a: seq<T>, b: seq<T>, c: seq<T>)
    requires Extends(a, b) && Extends(b, c)
    ensures Extends(a, c)
  {
    assert c[..|b|][..|a|] == c[..|a|];
  }

  /** From index `from` on, every event is a continuation: a 'followed by' batch query. */
  predicate Continuations(u: seq<Event>, from: nat)
  {
    forall j :: from <= j < |u| ==> u[j].BatchCall? && u[j].dir == FollowedBy
  }

  /** From index `from` on, no event takes a seed. */
  predicate NoSeeds(u: seq<Event>, from: nat)
  {
    forall j :: from <= j < |u| ==> !u[j].Seeded?
  }

  /**
   * What the chase from `g` to `r` asked: only 'followed by' links, the first time
   * for those of the last row gathered so far (whatever the direction being
   * expanded), and at most once per missing row; with enough rows, nothing.
   */
  ghost predicate ChaseShape(g: Gathered, r: Gathered, n: nat)
    requires |g.rows| > 0
  {
    Extends(g.trace, r.trace) && Continuations(r.trace, |g.trace|) &&
    (|g.rows| >= n ==> r == g) &&
    (|g.rows| < n ==> |g.trace| < |r.trace| <= |g.trace| + (n - |g.rows|) &&
                      r.trace[|g.trace|] == BatchCall(g.rows[|g.rows| - 1].row.tconst, FollowedBy))
  }

  /** One continuation query in front of a run of continuations is a run of continuations. */
  lemma ContinuationInFront(t: seq<Event>, e: Event, u: seq<Event>)
    requires e.BatchCall? && e.dir == FollowedBy
    requires Extends(t + [e], u) && Continuations(u, |t| + 1)
    ensures Extends(t, u) && Continuations(u, |t|) && u[|t|] == e
  {
    assert u[..|t|] == u[..|t| + 1][..|t|];
    assert u[|t|] == u[..|t| + 1][|t|];
  }

  /** The chase asks only for 'followed by' links, so it ends; with enough rows it asks nothing. */
  lemma {:induction false} ChaseTrace(content: seq<Title>, p: Provider, n: nat, caption: string, g: Gathered)
    requires |g.rows| > 0
    ensures ChaseShape(g, Chase(content, p, n, caption, g), n)
    decreases n - |g.rows|
  {
    if |g.rows| < n {
      var lastTconst := g.rows[|g.rows| - 1].row.tconst;
      var missed := p.batch(lastTconst, FollowedBy);
      var e := BatchCall(lastTconst, FollowedBy);
      var missedRows := Lookup(content, missed);
      var r := Chase(content, p, n, caption, g);
      if |missedRows| != 0 {
        var g' := Gathered(g.rows + Labelled(missedRows, Some(caption)), g.searched + missed, g.trace + [e]);
        ChaseTrace(content, p, n, caption, g');
        assert r == Chase(content, p, n, caption, g');
      }
      ContinuationInFront(g.trace, e, r.trace);
    }
  }

  /**
   * What one direction asked, `s` before it and `u` after: first the declared
   * count; if it was zero nothing more; otherwise the seed's own batch in that
   * direction, then only continuations. No seed is taken.
   */
  ghost predicate DirShape(s: seq<Event>, u: seq<Event>, seed: string, d: Direction, counted: bool)
  {
    Extends(s, u) && |u| > |s| && u[|s|] == CountCall(seed, d) && NoSeeds(u, |s|) &&
    (!counted ==> |u| == |s| + 1) &&
    (counted ==> |u| > |s| + 1 && u[|s| + 1] == BatchCall(seed, d) && Continuations(u, |s| + 2))
  }

  lemma DirShapeCounted(s: seq<Event>, seed: string, d: Direction, u: seq<Event>)
    requires Extends(s + [CountCall(seed, d)] + [BatchCall(seed, d)], u) && Continuations(u, |s| + 2)
    ensures DirShape(s, u, seed, d, true)
  {
    var t := s + [CountCall(seed, d)] + [BatchCall(seed, d)];
    assert u[..|s|] == t[..|s|] == s;
    assert u[|s|] == t[|s|] && u[|s| + 1] == t[|s| + 1];
  }

  lemma DirShapeUncounted(s: seq<Event>, seed: string, d: Direction)
    ensures DirShape(s, s + [CountCall(seed, d)], seed, d, false)
  {
    assert (s + [CountCall(seed, d)])[..|s|] == s;
  }

  /** The seed's own batch is asked first, then only continuations. */
  lemma DirRowsTrace(content: seq<Title>, p: Provider, seed: string, seedTitle: string, d: Direction,
                     searched: seq<string>, trace: seq<Event>)
    ensures var r := DirRows(content, p, seed, seedTitle, d, searched, trace);
            Extends(trace + [BatchCall(seed, d)], r.trace) && Continuations(r.trace, |trace| + 1)
  {
    var caption := Label(d, seedTitle, seed);
    var ids := p.batch(seed, d);
    var rows := Labelled(Lookup(content, ids), Some(caption));
    var start := Gathered(rows, searched + ids, trace + [BatchCall(seed, d)]);
    if |rows| != 0 {
      ChaseTrace(content, p, p.count(seed, d), caption, start);
    }
  }

  /**
   * One direction first asks for the declared count; a zero count asks nothing
   * more and changes nothing else; otherwise the next query is the seed's own
   * batch in that direction, and every later one is a continuation.
   */
  lemma ExpandDirTrace(content: seq<Title>, p: Provider, seed: string, seedTitle: string, d: Direction, s: SeedState)
    ensures DirShape(s.trace, ExpandDir(content, p, seed, seedTitle, d, s).trace, seed, d, p.count(seed, d) != 0)
    ensures p.count(seed, d) == 0 ==>
              ExpandDir(content, p, seed, seedTitle, d, s).group == s.group &&
              ExpandDir(content, p, seed, seedTitle, d, s).searched == s.searched
  {
    if p.count(seed, d) == 0 {
      DirShapeUncounted(s.trace, seed, d);
    } else {
      var trace := s.trace + [CountCall(seed, d)];
      DirRowsTrace(content, p, seed, seedTitle, d, s.searched, trace);
      DirShapeCounted(s.trace, seed, d, DirRows(content, p, seed, seedTitle, d, s.searched, trace).trace);
    }
  }

  lemma {:induction false} ExpandDirsTrace(content: seq<Title>, p: Provider, seed: string, seedTitle: string, k: nat, s: SeedState)
    requires k <= |Directions|
    ensures var r := ExpandDirs(content, p, seed, seedTitle, k, s); Extends(s.trace, r.trace) && NoSeeds(r.trace, |s.trace|)
  {
    if k > 0 {
      var mid := ExpandDirs(content, p, seed, seedTitle, k - 1, s);
      ExpandDirsTrace(content, p, seed, seedTitle, k - 1, s);
      ExpandDirTrace(content, p, seed, seedTitle, Directions[k - 1], mid);
      var r := ExpandDir(content, p, seed, seedTitle, Directions[k - 1], mid);
      ExtendsTrans(s.trace, mid.trace, r.trace);
      forall j | |s.trace| <= j < |r.trace| ensures !r.trace[j].Seeded? {
        if j < |mid.trace| {
          assert r.trace[j] == r.trace[..|mid.trace|][j];
        }
      }
    }
  }

  /** Expanding a seed records the seed, then only count and batch queries. */
  lemma ProcessSeedTrace(content: seq<Title>, subset: seq<Title>, p: Provider, seed: string, st: RunState)
    requires SeedRows(subset, seed) != []
    ensures var r := ProcessSeed(content, subset, p, seed, st).0;
            Extends(st.trace + [Seeded(seed)], r.trace) && NoSeeds(r.trace, |st.trace| + 1)
  {
    var seedTitle := SeedRows(subset, seed)[0].originalTitle;
    ExpandDirsTrace(content, p, seed, seedTitle, |Directions|, SeedStart(subset, seed, st));
  }

  // ---------------------------------------------------------------------------
  // Which titles become seeds
  // ---------------------------------------------------------------------------

  /** No seed was known (a seed or a disclosed id) before it was taken. */
  predicate FreshSeeds(p: Provider, trace: seq<Event>)
  {
    forall j :: 0 <= j < |trace| && trace[j].Seeded? ==> trace[j].id !in Learned(p, trace[..j])
  }

  lemma FreshSeedsExtend(p: Provider, t: seq<Event>, u: seq<Event>)
    requires FreshSeeds(p, t) && Extends(t, u) && NoSeeds(u, |t|)
    ensures FreshSeeds(p, u)
  {
    forall j | 0 <= j < |u| && u[j].Seeded? ensures u[j].id !in Learned(p, u[..j]) {
      assert u[..|t|][..j] == u[..j];
      assert t[j] == u[j];
    }
  }

  lemma FreshSeedsAddSeed(p: Provider, t: seq<Event>, x: string)
    requires FreshSeeds(p, t) && x !in Learned(p, t)
    ensures FreshSeeds(p, t + [Seeded(x)])
  {
    var u := t + [Seeded(x)];
    assert u[..|t|] == t;
    forall j | 0 <= j < |t| ensures u[..j] == t[..j] {
    }
  }

  /** Seeds are pairwise distinct: a fresh seed differs from every earlier one. */
  lemma SeedsDistinct(p: Provider, trace: seq<Event>)
    requires FreshSeeds(p, trace)
    ensures forall i, j :: 0 <= i < j < |trace| && trace[i].Seeded? && trace[j].Seeded? ==> trace[i].id != trace[j].id
  {
    forall i, j | 0 <= i < j < |trace| && trace[i].Seeded? && trace[j].Seeded? ensures trace[i].id != trace[j].id {
      assert trace[..j][i] == trace[i];
      LearnedContains(p, trace[..j], i, trace[i].id);
    }
  }

  /** Every seed is the id of a row of the walked subset. */
  predicate SeedsListed(subset: seq<Title>, trace: seq<Event>)
  {
    forall j :: 0 <= j < |trace| && trace[j].Seeded? ==> exists t :: t in subset && t.tconst == trace[j].id
  }

  /** What the walk keeps about its seeds: the searched list, fresh seeds, seeds drawn from the subset. */
  predicate SeedsInvariant(subset: seq<Title>, p: Provider, st: RunState)
  {
    st.searched == Learned(p, st.trace) && FreshSeeds(p, st.trace) && SeedsListed(subset, st.trace)
  }

  lemma ProcessSeedKeepsSeeds(content: seq<Title>, subset: seq<Title>, p: Provider, seed: string, st: RunState)
    requires SeedRows(subset, seed) != [] && SeedsInvariant(subset, p, st) && seed !in st.searched
    ensures SeedsInvariant(subset, p, ProcessSeed(content, subset, p, seed, st).0)
  {
    ProcessSeedLearned(content, subset, p, seed, st);
    FreshSeedsAddSeed(p, st.trace, seed);
    ProcessSeedTrace(content, subset, p, seed, st);
    var r := ProcessSeed(content, subset, p, seed, st).0;
    var t0 := st.trace + [Seeded(seed)];
    FreshSeedsExtend(p, t0, r.trace);
    LookupSpec(subset, [seed]);
    var row := SeedRows(subset, seed)[0];
    assert row in SeedRows(subset, seed);
    forall j | 0 <= j < |r.trace| && r.trace[j].Seeded? ensures exists t :: t in subset && t.tconst == r.trace[j].id {
      assert j < |t0|;
      assert r.trace[j] == t0[j];
      if j == |st.trace| {
        assert row.tconst == seed;
      } else {
        assert t0[j] == st.trace[j];
      }
    }
  }

  /**
   * A tconst already in `searched_tconsts` is never taken as a seed again: no
   * seed had been seen, as a seed or as a disclosed id, before it was taken, so
   * no title is a seed twice; and seeds are ids of rows of the walked subset.
   */
  lemma RunSeeds(content: seq<Title>, subset: seq<Title>, quota: int, p: Provider, k: nat)
    requires k <= |subset|
    ensures var st := Run(content, subset, quota, p, k).state; FreshSeeds(p, st.trace) && SeedsListed(subset, st.trace)
  {
    var inv := (st: RunState) => SeedsInvariant(subset, p, st);
    forall seed, st | SeedRows(subset, seed) != [] && inv(st) && seed !in st.searched
      ensures inv(ProcessSeed(content, subset, p, seed, st).0)
    {
      ProcessSeedKeepsSeeds(content, subset, p, seed, st);
    }
    RunKeeps(content, subset, quota, p, k, inv);
  }

  // ---------------------------------------------------------------------------
  // What a group holds
  // ---------------------------------------------------------------------------

  /** The chase only appends, and every appended row is a catalog row labelled like the first batch. */
  lemma {:induction false} ChaseRows(content: seq<Title>, p: Provider, n: nat, caption: string, g: Gathered)
    requires |g.rows| > 0
    ensures var r := Chase(content, p, n, caption, g);
            Extends(g.rows, r.rows) &&
            forall k :: |g.rows| <= k < |r.rows| ==> r.rows[k].connection == Some(caption) && r.rows[k].row in content
    decreases n - |g.rows|
  {
    if |g.rows| < n {
      var lastTconst := g.rows[|g.rows| - 1].row.tconst;
      var missed := p.batch(lastTconst, FollowedBy);
      var missedRows := Lookup(content, missed);
      if |missedRows| != 0 {
        var added := Labelled(missedRows, Some(caption));
        var g' := Gathered(g.rows + added, g.searched + missed, g.trace + [BatchCall(lastTconst, FollowedBy)]);
        ChaseRows(content, p, n, caption, g');
        var r := Chase(content, p, n, caption, g');
        ExtendsTrans(g.rows, g'.rows, r.rows);
        LookupSpec(content, missed);
        forall k | |g.rows| <= k < |g'.rows| ensures r.rows[k].connection == Some(caption) && r.rows[k].row in content {
          assert r.rows[k] == g'.rows[k] == added[k - |g.rows|];
          assert missedRows[k - |g.rows|] in missedRows;
        }
      }
    }
  }

  /** Whether the last query of `trace` was a batch whose ids name no catalog row. */
  ghost predicate EndsWithEmptyBatch(content: seq<Title>, p: Provider, trace: seq<Event>)
  {
    |trace| > 0 && trace[|trace| - 1].BatchCall? &&
    Lookup(content, p.batch(trace[|trace| - 1].id, trace[|trace| - 1].dir)) == []
  }

  /**
   * From index `from` on, every continuation but the last named some catalog row,
   * and the next continuation asks for the last of those rows, which is the last
   * row gathered before it.
   */
  ghost predicate ChainedContinuations(content: seq<Title>, p: Provider, u: seq<Event>, from: nat)
  {
    forall j :: from <= j < |u| - 1 ==>
      var found := Lookup(content, p.batch(u[j].id, FollowedBy));
      found != [] && u[j + 1] == BatchCall(found[|found| - 1].tconst, FollowedBy)
  }

  /**
   * Each continuation asks for the last row gathered before it, and only the last
   * continuation may name no catalog row; the chase stops short of the declared
   * count only after such a continuation.
   */
  lemma {:induction false} ChaseStop(content: seq<Title>, p: Provider, n: nat, caption: string, g: Gathered)
    requires |g.rows| > 0
    ensures var r := Chase(content, p, n, caption, g);
            ChainedContinuations(content, p, r.trace, |g.trace|) &&
            (|r.rows| < n ==> EndsWithEmptyBatch(content, p, r.trace))
    decreases n - |g.rows|
  {
    ChaseChain(content, p, n, caption, g);
    if |g.rows| < n {
      var lastTconst := g.rows[|g.rows| - 1].row.tconst;
      var missed := p.batch(lastTconst, FollowedBy);
      var trace := g.trace + [BatchCall(lastTconst, FollowedBy)];
      var missedRows := Lookup(content, missed);
      if |missedRows| != 0 {
        var g' := Gathered(g.rows + Labelled(missedRows, Some(caption)), g.searched + missed, trace);
        ChaseStop(content, p, n, caption, g');
      } else {
        assert trace[|trace| - 1] == BatchCall(lastTconst, FollowedBy);
      }
    }
  }

  lemma {:induction false} ChaseChain(content: seq<Title>, p: Provider, n: nat, caption: string, g: Gathered)
    requires |g.rows| > 0
    ensures ChainedContinuations(content, p, Chase(content, p, n, caption, g).trace, |g.trace|)
    decreases n - |g.rows|
  {
    if |g.rows| < n {
      var lastTconst := g.rows[|g.rows| - 1].row.tconst;
      var missed := p.batch(lastTconst, FollowedBy);
      var missedRows := Lookup(content, missed);
      if |missedRows| != 0 {
        var g' := Gathered(g.rows + Labelled(missedRows, Some(caption)), g.searched + missed,
                           g.trace + [BatchCall(lastTconst, FollowedBy)]);
        ChaseChain(content, p, n, caption, g');
        var r := Chase(content, p, n, caption, g');
        assert r == Chase(content, p, n, caption, g);
        ChaseNext(content, p, n, caption, g');
        LabelledLast(missedRows, Some(caption), g.rows);
        ChainLink(content, p, g.trace, BatchCall(lastTconst, FollowedBy), r.trace, missedRows);
      }
    }
  }

  /** The chase from `g` asks next, if anything, for the last row of `g`. */
  lemma ChaseNext(content: seq<Title>, p: Provider, n: nat, caption: string, g: Gathered)
    requires |g.rows| > 0
    ensures var r := Chase(content, p, n, caption, g);
            Extends(g.trace, r.trace) &&
            (|r.trace| > |g.trace| ==> r.trace[|g.trace|] == BatchCall(g.rows[|g.rows| - 1].row.tconst, FollowedBy))
  {
    ChaseTrace(content, p, n, caption, g);
  }

  lemma LabelledLast(rows: seq<Title>, connection: Option<string>, before: seq<Entry>)
    requires rows != []
    ensures var all := before + Labelled(rows, connection); all[|all| - 1].row == rows[|rows| - 1]
  {
  }

  /** A continuation that named catalog rows, followed by one asking for the last of them, extends the chain. */
  lemma ChainLink(content: seq<Title>, p: Provider, t: seq<Event>, e: Event, u: seq<Event>, found: seq<Title>)
    requires Extends(t + [e], u) && found == Lookup(content, p.batch(e.id, FollowedBy)) && found != []
    requires |u| > |t| + 1 ==> u[|t| + 1] == BatchCall(found[|found| - 1].tconst, FollowedBy)
    requires ChainedContinuations(content, p, u, |t| + 1)
    ensures ChainedContinuations(content, p, u, |t|)
  {
    assert u[|t|] == u[..|t| + 1][|t|];
  }

  /** Every row gathered for a direction is a catalog row labelled with that direction's relation to the seed. */
  lemma GatheredRows(content: seq<Title>, p: Provider, seed: string, seedTitle: string, d: Direction, s: SeedState)
    requires p.count(seed, d) != 0
    ensures var caption := Label(d, seedTitle, seed);
            var rows := Labelled(Lookup(content, p.batch(seed, d)), Some(caption));
            var start := Gathered(rows, s.searched + p.batch(seed, d), s.trace + [CountCall(seed, d)] + [BatchCall(seed, d)]);
            var g := if |rows| != 0 then Chase(content, p, p.count(seed, d), caption, start) else start;
            forall e :: e in g.rows ==> e.connection == Some(caption) && e.row in content
  {
    var caption := Label(d, seedTitle, seed);
    var looked := Lookup(content, p.batch(seed, d));
    var rows := Labelled(looked, Some(caption));
    LookupSpec(content, p.batch(seed, d));
    assert forall k :: 0 <= k < |rows| ==> rows[k].connection == Some(caption) && rows[k].row in content by {
      forall k | 0 <= k < |rows| ensures rows[k].connection == Some(caption) && rows[k].row in content {
        assert looked[k] in looked;
      }
    }
    var start := Gathered(rows, s.searched + p.batch(seed, d), s.trace + [CountCall(seed, d)] + [BatchCall(seed, d)]);
    if |rows| != 0 {
      ChaseRows(content, p, p.count(seed, d), caption, start);
      var g := Chase(content, p, p.count(seed, d), caption, start);
      forall e | e in g.rows ensures e.connection == Some(caption) && e.row in content {
        var k :| 0 <= k < |g.rows| && g.rows[k] == e;
        if k < |rows| {
          assert g.rows[..|rows|][k] == rows[k];
        }
      }
    }
  }

  /**
   * A direction only appends to the seed's group, and only unwatched catalog rows
   * labelled "<relation> <seed title> (<seed id>)".
   */
  lemma ExpandDirGroup(content: seq<Title>, p: Provider, seed: string, seedTitle: string, d: Direction, s: SeedState)
    ensures var r := ExpandDir(content, p, seed, seedTitle, d, s);
            Extends(s.group, r.group) &&
            forall k :: |s.group| <= k < |r.group| ==>
              r.group[k].connection == Some(Label(d, seedTitle, seed)) && EntryUnwatched(r.group[k]) && r.group[k].row in content
  {
    if p.count(seed, d) != 0 {
      GatheredRows(content, p, seed, seedTitle, d, s);
      var r := ExpandDir(content, p, seed, seedTitle, d, s);
      forall k | |s.group| <= k < |r.group|
        ensures r.group[k].connection == Some(Label(d, seedTitle, seed)) && EntryUnwatched(r.group[k]) && r.group[k].row in content
      {
        var added := r.group[|s.group|..];
        assert r.group == s.group + added;
        assert r.group[k] in added;
      }
    }
  }

  /** Whether `e` is labelled as a connection of `seed` in either direction. */
  predicate LabelledFrom(e: Entry, seedTitle: string, seed: string)
  {
    e.connection == Some(Label(Follows, seedTitle, seed)) || e.connection == Some(Label(FollowedBy, seedTitle, seed))
  }

  lemma {:induction false} ExpandDirsGroup(content: seq<Title>, p: Provider, seed: string, seedTitle: string, k: nat, s: SeedState)
    requires k <= |Directions|
    ensures var r := ExpandDirs(content, p, seed, seedTitle, k, s);
            Extends(s.group, r.group) &&
            forall j :: |s.group| <= j < |r.group| ==>
              LabelledFrom(r.group[j], seedTitle, seed) && EntryUnwatched(r.group[j]) && r.group[j].row in content
  {
    if k > 0 {
      var mid := ExpandDirs(content, p, seed, seedTitle, k - 1, s);
      ExpandDirsGroup(content, p, seed, seedTitle, k - 1, s);
      ExpandDirGroup(content, p, seed, seedTitle, Directions[k - 1], mid);
      var r := ExpandDir(content, p, seed, seedTitle, Directions[k - 1], mid);
      ExtendsTrans(s.group, mid.group, r.group);
      forall j | |s.group| <= j < |mid.group| ensures r.group[j] == mid.group[j] {
        assert r.group[..|mid.group|][j] == r.group[j];
      }
    }
  }

  /**
   * The rows of a seed's group: the seed's own unlabelled row among them, all of
   * them catalog rows, every labelled one an unwatched connection of the seed.
   */
  ghost predicate GroupRows(content: seq<Title>, g: seq<Entry>, seedTitle: string, seed: string)
  {
    (exists e :: e in g && e.connection.None? && e.row.tconst == seed) &&
    (forall e :: e in g ==> e.row in content) &&
    (forall e :: e in g && e.connection.Some? ==> EntryUnwatched(e) && LabelledFrom(e, seedTitle, seed))
  }

  /**
   * An emitted group: sorted by (startYear, index), holding an unwatched row and
   * the seed's own unlabelled row, made of catalog rows; every labelled row in it
   * is an unwatched connection of the seed.
   */
  ghost predicate GroupWellFormed(content: seq<Title>, g: seq<Entry>, seedTitle: string, seed: string)
  {
    SortedByYearIndex(g) && Seqs.Any(g, EntryUnwatched) && GroupRows(content, g, seedTitle, seed)
  }

  /** A seed either emits exactly one group and adds its contribution to the count, or changes neither. */
  lemma ProcessSeedEmits(content: seq<Title>, subset: seq<Title>, p: Provider, seed: string, st: RunState)
    requires SeedRows(subset, seed) != []
    ensures var (r, emitted) := ProcessSeed(content, subset, p, seed, st);
            if emitted then
              |r.groups| == |st.groups| + 1 && r.groups[..|st.groups|] == st.groups &&
              r.count == st.count + Contribution(r.groups[|st.groups|])
            else
              r.groups == st.groups && r.count == st.count
    ensures var (_, emitted) := ProcessSeed(content, subset, p, seed, st);
            var seedTitle := SeedRows(subset, seed)[0].originalTitle;
            emitted <==> Seqs.Any(ExpandDirs(content, p, seed, seedTitle, |Directions|, SeedStart(subset, seed, st)).group,
                                  EntryUnwatched)
  {
  }

  /** The expanded group, before sorting, has the rows of a seed's group. */
  lemma ExpandedGroupRows(content: seq<Title>, subset: seq<Title>, p: Provider, seed: string, st: RunState)
    requires SeedRows(subset, seed) != []
    requires forall t :: t in subset ==> t in content
    ensures var seedTitle := SeedRows(subset, seed)[0].originalTitle;
            GroupRows(content, ExpandDirs(content, p, seed, seedTitle, |Directions|, SeedStart(subset, seed, st)).group,
                      seedTitle, seed)
  {
    var seedRows := SeedRows(subset, seed);
    var seedTitle := seedRows[0].originalTitle;
    var start := SeedStart(subset, seed, st);
    var s := ExpandDirs(content, p, seed, seedTitle, |Directions|, start);
    ExpandDirsGroup(content, p, seed, seedTitle, |Directions|, start);
    LookupSpec(subset, [seed]);
    var first := start.group[0];
    assert first == Entry(seedRows[0], None);
    assert seedRows[0] in seedRows;
    assert s.group[0] == first;
    forall e | e in s.group ensures e.row in content && (e.connection.Some? ==> EntryUnwatched(e) && LabelledFrom(e, seedTitle, seed)) {
      var i :| 0 <= i < |s.group| && s.group[i] == e;
      if i < |start.group| {
        assert s.group[i] == start.group[i];
        assert seedRows[i] in seedRows;
      }
    }
  }

  /** Sorting a group with an unwatched row and the rows of a seed's group makes it well formed. */
  lemma SortedGroupWellFormed(content: seq<Title>, g: seq<Entry>, seedTitle: string, seed: string)
    requires GroupRows(content, g, seedTitle, seed) && Seqs.Any(g, EntryUnwatched)
    ensures GroupWellFormed(content, SortByYearIndex(g), seedTitle, seed)
  {
    var sorted := SortByYearIndex(g);
    SortByYearIndexSpec(g);
    forall e | e in sorted ensures e in g {
      assert e in multiset(sorted);
    }
    var e0 :| e0 in g && e0.connection.None? && e0.row.tconst == seed;
    assert e0 in multiset(g);
    var j :| 0 <= j < |g| && EntryUnwatched(g[j]);
    assert g[j] in multiset(g);
    var k :| 0 <= k < |sorted| && sorted[k] == g[j];
  }

  /** The group a seed emits is well formed, with the seed's first subset row naming it. */
  lemma ProcessSeedGroup(content: seq<Title>, subset: seq<Title>, p: Provider, seed: string, st: RunState)
    requires SeedRows(subset, seed) != []
    requires forall t :: t in subset ==> t in content
    ensures var (r, emitted) := ProcessSeed(content, subset, p, seed, st);
            var seedTitle := SeedRows(subset, seed)[0].originalTitle;
            emitted ==> |r.groups| > |st.groups| && GroupWellFormed(content, r.groups[|st.groups|], seedTitle, seed)
  {
    var seedTitle := SeedRows(subset, seed)[0].originalTitle;
    var s := ExpandDirs(content, p, seed, seedTitle, |Directions|, SeedStart(subset, seed, st));
    ExpandedGroupRows(content, subset, p, seed, st);
    if Seqs.Any(s.group, EntryUnwatched) {
      SortedGroupWellFormed(content, s.group, seedTitle, seed);
    }
  }

  /** Whether `g` is a well-formed group for some seed row of `subset`. */
  ghost predicate GroupOfSubset(content: seq<Title>, subset: seq<Title>, g: seq<Entry>)
  {
    exists t :: t in subset && GroupWellFormed(content, g, t.originalTitle, t.tconst)
  }

  /** Every group is well formed for some seed row of the subset. */
  ghost predicate GroupsOfSubset(content: seq<Title>, subset: seq<Title>, gs: seq<seq<Entry>>)
  {
    forall j :: 0 <= j < |gs| ==> GroupOfSubset(content, subset, gs[j])
  }

  lemma ProcessSeedKeepsGroups(content: seq<Title>, subset: seq<Title>, p: Provider, seed: string, st: RunState)
    requires SeedRows(subset, seed) != [] && GroupsOfSubset(content, subset, st.groups)
    requires forall t :: t in subset ==> t in content
    ensures GroupsOfSubset(content, subset, ProcessSeed(content, subset, p, seed, st).0.groups)
  {
    ProcessSeedEmits(content, subset, p, seed, st);
    ProcessSeedGroup(content, subset, p, seed, st);
    var (r, emitted) := ProcessSeed(content, subset, p, seed, st);
    if emitted {
      var seedRow := SeedRows(subset, seed)[0];
      LookupSpec(subset, [seed]);
      assert seedRow in SeedRows(subset, seed);
      forall j | 0 <= j < |r.groups| ensures GroupOfSubset(content, subset, r.groups[j]) {
        if j < |st.groups| {
          assert r.groups[j] == r.groups[..|st.groups|][j] == st.groups[j];
        } else {
          assert GroupWellFormed(content, r.groups[j], seedRow.originalTitle, seedRow.tconst);
        }
      }
    }
  }

  /** Every group the walk has emitted is well formed for a seed drawn from the subset. */
  lemma RunGroups(content: seq<Title>, subset: seq<Title>, quota: int, p: Provider, k: nat)
    requires k <= |subset|
    requires forall t :: t in subset ==> t in content
    ensures GroupsOfSubset(content, subset, Run(content, subset, quota, p, k).state.groups)
  {
    var inv := (st: RunState) => GroupsOfSubset(content, subset, st.groups);
    forall seed, st | SeedRows(subset, seed) != [] && inv(st) && seed !in st.searched
      ensures inv(ProcessSeed(content, subset, p, seed, st).0)
    {
      ProcessSeedKeepsGroups(content, subset, p, seed, st);
    }
    RunKeeps(content, subset, quota, p, k, inv);
  }

  // ---------------------------------------------------------------------------
  // The count and the quota
  // ---------------------------------------------------------------------------

  /** The sum of the contributions of `groups`. */
  function Total(groups: seq<seq<Entry>>): int
    decreases |groups|
  {
    if groups == [] then 0 else Total(groups[..|groups| - 1]) + Contribution(groups[|groups| - 1])
  }

  /** No proper, non-empty prefix of `gs` reaches `quota`. */
  ghost predicate PrefixesBelow(gs: seq<seq<Entry>>, quota: int)
  {
    forall j :: 1 <= j < |gs| ==> Total(gs[..j]) < quota
  }

  /** Appending a group to groups whose total is still below the quota keeps every proper prefix below it. */
  lemma AppendGroup(gs: seq<seq<Entry>>, g: seq<Entry>, quota: int)
    requires PrefixesBelow(gs, quota) && (|gs| > 0 ==> Total(gs) < quota)
    ensures Total(gs + [g]) == Total(gs) + Contribution(g)
    ensures PrefixesBelow(gs + [g], quota)
  {
    var hs := gs + [g];
    assert hs[..|hs| - 1] == gs;
    forall j | 1 <= j < |hs| ensures Total(hs[..j]) < quota {
      assert hs[..j] == gs[..j];
      if j == |gs| {
        assert gs[..j] == gs;
      }
    }
  }

  /**
   * The count is the total contribution of the groups; no proper prefix of them
   * reaches the quota; a stopped walk has reached it and a running one has not.
   */
  ghost predicate CountInvariant(r: Progress, quota: int)
  {
    var gs := r.state.groups;
    r.state.count == Total(gs) && PrefixesBelow(gs, quota) &&
    (r.stoppedAt.Some? ==> |gs| > 0 && Total(gs) >= quota) &&
    (r.stoppedAt.None? && |gs| > 0 ==> Total(gs) < quota)
  }

  lemma ProcessSeedKeepsCount(content: seq<Title>, subset: seq<Title>, p: Provider, seed: string, st: RunState, quota: int, j: nat)
    requires SeedRows(subset, seed) != [] && CountInvariant(Progress(st, None), quota)
    ensures CountInvariant(Advance(quota, j, ProcessSeed(content, subset, p, seed, st)), quota)
  {
    ProcessSeedEmits(content, subset, p, seed, st);
    var (r, emitted) := ProcessSeed(content, subset, p, seed, st);
    if emitted {
      var g := r.groups[|st.groups|];
      assert r.groups == st.groups + [g];
      AppendGroup(st.groups, g, quota);
    }
  }

  /**
   * `num_titles` is the total contribution of the emitted groups; no proper prefix
   * of them reaches the quota; the walk stops exactly when the last emitted group
   * takes the total to the quota.
   */
  lemma RunCountQuota(content: seq<Title>, subset: seq<Title>, quota: int, p: Provider, k: nat)
    requires k <= |subset|
    ensures CountInvariant(Run(content, subset, quota, p, k), quota)
  {
    var step := SeedStep(content, subset, p);
    var inv := (r: Progress) => CountInvariant(r, quota);
    forall j, st | 0 <= j < |subset| && inv(Progress(st, None)) && subset[j].tconst !in st.searched
      ensures inv(Advance(quota, j, step(subset[j].tconst, st)))
    {
      if SeedRows(subset, subset[j].tconst) != [] {
        ProcessSeedKeepsCount(content, subset, p, subset[j].tconst, st, quota, j);
      }
    }
    WalkInvariant(subset, quota, step, k, inv);
  }

  // ---------------------------------------------------------------------------
  // No deduplication: a seed's group ignores what was searched before
  // ---------------------------------------------------------------------------

  /** The rows a chase gathers depend only on the rows it starts from. */
  lemma {:induction false} ChaseRowsIgnoreHistory(content: seq<Title>, p: Provider, n: nat, caption: string, g: Gathered, h: Gathered)
    requires |g.rows| > 0 && g.rows == h.rows
    ensures Chase(content, p, n, caption, g).rows == Chase(content, p, n, caption, h).rows
    decreases n - |g.rows|
  {
    if |g.rows| < n {
      var lastTconst := g.rows[|g.rows| - 1].row.tconst;
      var missed := p.batch(lastTconst, FollowedBy);
      var missedRows := Lookup(content, missed);
      if |missedRows| != 0 {
        var rows := g.rows + Labelled(missedRows, Some(caption));
        ChaseRowsIgnoreHistory(content, p, n, caption,
          Gathered(rows, g.searched + missed, g.trace + [BatchCall(lastTconst, FollowedBy)]),
          Gathered(rows, h.searched + missed, h.trace + [BatchCall(lastTconst, FollowedBy)]));
      }
    }
  }

  lemma ExpandDirIgnoresHistory(content: seq<Title>, p: Provider, seed: string, seedTitle: string, d: Direction, s: SeedState, u: SeedState)
    requires s.group == u.group
    ensures ExpandDir(content, p, seed, seedTitle, d, s).group == ExpandDir(content, p, seed, seedTitle, d, u).group
  {
    if p.count(seed, d) != 0 {
      var ids := p.batch(seed, d);
      var caption := Label(d, seedTitle, seed);
      var rows := Labelled(Lookup(content, ids), Some(caption));
      if |rows| != 0 {
        ChaseRowsIgnoreHistory(content, p, p.count(seed, d), caption,
          Gathered(rows, s.searched + ids, s.trace + [CountCall(seed, d)] + [BatchCall(seed, d)]),
          Gathered(rows, u.searched + ids, u.trace + [CountCall(seed, d)] + [BatchCall(seed, d)]));
      }
    }
  }

  lemma {:induction false} ExpandDirsIgnoresHistory(content: seq<Title>, p: Provider, seed: string, seedTitle: string, k: nat, s: SeedState, u: SeedState)
    requires k <= |Directions| && s.group == u.group
    ensures ExpandDirs(content, p, seed, seedTitle, k, s).group == ExpandDirs(content, p, seed, seedTitle, k, u).group
  {
    if k > 0 {
      ExpandDirsIgnoresHistory(content, p, seed, seedTitle, k - 1, s, u);
      ExpandDirIgnoresHistory(content, p, seed, seedTitle, Directions[k - 1],
        ExpandDirs(content, p, seed, seedTitle, k - 1, s), ExpandDirs(content, p, seed, seedTitle, k - 1, u));
    }
  }

  /**
   * Whether a seed emits a group, and which, does not depend on the titles searched
   * before it: connections are never filtered against earlier seeds, so a title can
   * appear in the groups of two seeds.
   */
  lemma SeedGroupIgnoresHistory(content: seq<Title>, subset: seq<Title>, p: Provider, seed: string, st: RunState, su: RunState)
    requires SeedRows(subset, seed) != []
    ensures var (r, e) := ProcessSeed(content, subset, p, seed, st);
            var (q, f) := ProcessSeed(content, subset, p, seed, su);
            e == f && (e ==> r.groups[|st.groups|] == q.groups[|su.groups|])
  {
    var seedTitle := SeedRows(subset, seed)[0].originalTitle;
    ExpandDirsIgnoresHistory(content, p, seed, seedTitle, |Directions|, SeedStart(subset, seed, st), SeedStart(subset, seed, su));
  }

  // ---------------------------------------------------------------------------
  // What get_ordered_connections returns
  // ---------------------------------------------------------------------------

  lemma {:induction false} FlattenMember(gs: seq<seq<Entry>>, e: Entry)
    requires e in Flatten(gs)
    ensures exists j :: 0 <= j < |gs| && e in gs[j]
    decreases |gs|
  {
    var init := gs[..|gs| - 1];
    if e in Flatten(init) {
      FlattenMember(init, e);
      var j :| 0 <= j < |init| && e in init[j];
      assert gs[j] == init[j];
    } else {
      assert e in gs[|gs| - 1];
    }
  }

  /**
   * Every seed of the walk is the id of a catalog title, never a videogame when
   * videogames are excluded, and no seed had been seen before it was taken.
   */
  lemma ResolveSeeds(content: seq<Title>, numContentToDisplay: int, excludeVideogames: bool, p: Provider)
    ensures var r := Resolve(content, numContentToDisplay, excludeVideogames, p);
            FreshSeeds(p, r.trace) &&
            forall j :: 0 <= j < |r.trace| && r.trace[j].Seeded? ==>
              exists t :: t in content && t.tconst == r.trace[j].id && (excludeVideogames ==> !IsVideogame(t))
  {
    var subset := Subset(content, excludeVideogames);
    RunSeeds(content, subset, numContentToDisplay, p, |subset|);
  }

  /** Whether `e` is a catalog row that is unwatched when it is a connection. */
  ghost predicate ReturnableRow(content: seq<Title>, e: Entry)
  {
    e.row in content && (e.connection.Some? ==> EntryUnwatched(e))
  }

  lemma FlattenRows(content: seq<Title>, subset: seq<Title>, gs: seq<seq<Entry>>)
    requires GroupsOfSubset(content, subset, gs)
    ensures forall e :: e in Flatten(gs) ==> ReturnableRow(content, e)
  {
    forall e | e in Flatten(gs) ensures ReturnableRow(content, e) {
      FlattenMember(gs, e);
      var j :| 0 <= j < |gs| && e in gs[j];
      var t :| t in subset && GroupWellFormed(content, gs[j], t.originalTitle, t.tconst);
    }
  }

  lemma RunRows(content: seq<Title>, subset: seq<Title>, quota: int, p: Provider, k: nat)
    requires k <= |subset|
    requires forall t :: t in subset ==> t in content
    ensures forall e :: e in Flatten(Run(content, subset, quota, p, k).state.groups) ==> ReturnableRow(content, e)
  {
    RunGroups(content, subset, quota, p, k);
    FlattenRows(content, subset, Run(content, subset, quota, p, k).state.groups);
  }

  /** Every returned row is a catalog row, and every connection row among them is unwatched. */
  lemma ResolveRows(content: seq<Title>, numContentToDisplay: int, excludeVideogames: bool, p: Provider)
    ensures var r := Resolve(content, numContentToDisplay, excludeVideogames, p);
            r.outcome.Ok? ==> forall e :: e in r.outcome.value.0 ==> ReturnableRow(content, e)
  {
    var subset := Subset(content, excludeVideogames);
    RunRows(content, subset, numContentToDisplay, p, |subset|);
  }

  lemma {:induction false} FlattenContains(gs: seq<seq<Entry>>, j: nat, e: Entry)
    requires j < |gs| && e in gs[j]
    ensures e in Flatten(gs)
    decreases |gs|
  {
    if j < |gs| - 1 {
      var init := gs[..|gs| - 1];
      assert init[j] == gs[j];
      FlattenContains(init, j, e);
    }
  }

  /**
   * The resolver raises exactly when no emitted group holds a connection row:
   * `pd.concat` when nothing was emitted, the column selection when no group
   * has a `connection` column. A result names an index of the subset.
   */
  lemma ResolveOutcome(content: seq<Title>, numContentToDisplay: int, excludeVideogames: bool, p: Provider)
    ensures var subset := Subset(content, excludeVideogames);
            var gs := Run(content, subset, numContentToDisplay, p, |subset|).state.groups;
            var r := Resolve(content, numContentToDisplay, excludeVideogames, p);
            (r.outcome.Ok? <==> exists j, e :: 0 <= j < |gs| && e in gs[j] && IsConnection(e)) &&
            (r.outcome.Err? ==> r.outcome.error == if gs == [] then NoObjectsToConcatenate else ConnectionNotInIndex) &&
            (r.outcome.Ok? ==> 0 <= r.outcome.value.1 < |subset|) &&
            (subset == [] ==> r.outcome == Err(NoObjectsToConcatenate))
  {
    var subset := Subset(content, excludeVideogames);
    var run := Run(content, subset, numContentToDisplay, p, |subset|);
    var gs := run.state.groups;
    if exists j, e :: 0 <= j < |gs| && e in gs[j] && IsConnection(e) {
      var j, e :| 0 <= j < |gs| && e in gs[j] && IsConnection(e);
      FlattenContains(gs, j, e);
      var k :| 0 <= k < |Flatten(gs)| && Flatten(gs)[k] == e;
    }
    if Seqs.Any(Flatten(gs), IsConnection) {
      var k :| 0 <= k < |Flatten(gs)| && IsConnection(Flatten(gs)[k]);
      FlattenMember(gs, Flatten(gs)[k]);
    }
  }
}
