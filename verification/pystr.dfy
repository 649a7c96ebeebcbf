/**
 * The few Python `str` operations the scrapers rely on: `find` of one character,
 * slicing with negative and out-of-range bounds, `split` on a non-empty separator,
 * `strip` of `isspace()` whitespace, `replace` of one character by nothing, and
 * `int()` restricted to unsigned ASCII decimal numerals.
 */
module PyStr {
  import opened Wrappers
  import Seqs

  // ---------------------------------------------------------------------------
  // Characters
  // ---------------------------------------------------------------------------

  /** `c.isspace()`: the characters `str.strip()` and `int()` treat as whitespace. */
  predicate IsSpace(c: char)
  {
    c == ' ' || '\t' <= c <= '\r' || '\U{1C}' <= c <= '\U{1F}' || c == '\U{85}' || c == '\U{A0}' ||
    c == '\U{1680}' || '\U{2000}' <= c <= '\U{200A}' || c == '\U{2028}' || c == '\U{2029}' ||
    c == '\U{202F}' || c == '\U{205F}' || c == '\U{3000}'
  }

  predicate AllSpace(s: string)
  {
    forall k :: 0 <= k < |s| ==> IsSpace(s[k])
  }

  predicate IsDigit(c: char)
  {
    '0' <= c <= '9'
  }

  predicate IsDigits(s: string)
  {
    forall k :: 0 <= k < |s| ==> IsDigit(s[k])
  }

  function DigitChar(d: nat): (c: char)
    requires d < 10
    ensures IsDigit(c) && c as int - '0' as int == d
  {
    ('0' as int + d) as char
  }

  // ---------------------------------------------------------------------------
  // str.find(c)
  // ---------------------------------------------------------------------------

  /** `s.find(c)`: the index of the first `c` in `s`, or -1 when there is none. */
  function Find(s: string, c: char): (r: int)
    ensures -1 <= r < |s|
    ensures r == -1 <==> c !in s
    ensures r >= 0 ==> s[r] == c && c !in s[..r]
    decreases |s|
  {
    if s == [] then -1
    else if s[0] == c then 0
    else
      var k := Find(s[1..], c);
      assert s == [s[0]] + s[1..];
      if k == -1 then -1
      else
        assert s[..k + 1] == [s[0]] + s[1..][..k];
        k + 1
  }

  lemma {:induction false} FindAppend(a: string, b: string, c: char)
    requires c !in a
    ensures Find(a + b, c) == if c in b then |a| + Find(b, c) else -1
    decreases |a|
  {
    if a != [] {
      assert a == [a[0]] + a[1..];
      assert (a + b)[1..] == a[1..] + b;
      FindAppend(a[1..], b, c);
    } else {
      assert a + b == b;
    }
  }

  // ---------------------------------------------------------------------------
  // s[start:end]
  // ---------------------------------------------------------------------------

  /** Python's normalisation of a slice bound against a length `n`. */
  function SliceBound(i: int, n: nat): (r: nat)
    ensures r <= n
    ensures 0 <= i <= n ==> r == i
  {
    if i < 0 then (if i + n < 0 then 0 else i + n) else if i > n then n else i
  }

  /** `s[start:end]`: negative bounds count from the end, bounds are clamped, and an empty range gives "". */
  function Slice(s: string, start: int, end: int): (r: string)
    ensures 0 <= start <= end <= |s| ==> r == s[start..end]
    ensures |r| <= |s|
  {
    var a := SliceBound(start, |s|);
    var b := SliceBound(end, |s|);
    if a < b then s[a..b] else ""
  }

  // ---------------------------------------------------------------------------
  // str.split(sep) and sep.join(parts)
  // ---------------------------------------------------------------------------

  /** `sep` occurs in `s` starting at index `i`. */
  predicate Occurs(s: string, sep: string, i: int)
  {
    0 <= i && i + |sep| <= |s| && s[i..i + |sep|] == sep
  }

  /** `s.find(sep)` for a non-empty separator: where its first occurrence starts, or -1 (see IndexOfFirst). */
  function IndexOf(s: string, sep: string): (r: int)
    requires |sep| > 0
    ensures -1 <= r && (r >= 0 ==> r + |sep| <= |s|)
    decreases |s|
  {
    if |s| < |sep| then -1
    else if s[..|sep|] == sep then 0
    else
      var k := IndexOf(s[1..], sep);
      if k == -1 then -1 else k + 1
  }

  /** IndexOf finds the first occurrence of the separator, and -1 means there is none. */
  lemma {:induction false} IndexOfFirst(s: string, sep: string)
    requires |sep| > 0
    ensures var r := IndexOf(s, sep);
            (r == -1 || Occurs(s, sep, r)) &&
            (r == -1 ==> forall i :: !Occurs(s, sep, i)) &&
            (forall i :: 0 <= i < r ==> !Occurs(s, sep, i))
    decreases |s|
  {
    if |s| >= |sep| && s[..|sep|] != sep {
      IndexOfFirst(s[1..], sep);
      var k := IndexOf(s[1..], sep);
      forall i | 0 <= i ensures Occurs(s, sep, i + 1) <==> Occurs(s[1..], sep, i) {
        OccursShift(s, sep, i);
      }
      assert !Occurs(s, sep, 0);
      forall i | 1 <= i && (k == -1 || i < k + 1) ensures !Occurs(s, sep, i) {
        assert !Occurs(s[1..], sep, i - 1);
      }
    }
  }

  lemma OccursShift(s: string, sep: string, i: nat)
    requires |s| > 0
    ensures Occurs(s, sep, i + 1) <==> Occurs(s[1..], sep, i)
  {
    if i + 1 + |sep| <= |s| {
      assert s[i + 1..i + 1 + |sep|] == s[1..][i..i + |sep|];
    }
  }

  /** `s.split(sep)` for a non-empty separator: cut at each occurrence, scanning from the left. */
  function Split(s: string, sep: string): (parts: seq<string>)
    requires |sep| > 0
    ensures |parts| >= 1
    decreases |s|
  {
    var i := IndexOf(s, sep);
    if i == -1 then [s] else [s[..i]] + Split(s[i + |sep|..], sep)
  }

  /** `sep.join(parts)`. */
  function Join(sep: string, parts: seq<string>): string
    requires |parts| >= 1
    decreases |parts|
  {
    if |parts| == 1 then parts[0] else parts[0] + sep + Join(sep, parts[1..])
  }

  /** Splitting loses nothing: joining the pieces with the separator gives the string back. */
  lemma {:induction false} JoinSplit(s: string, sep: string)
    requires |sep| > 0
    ensures Join(sep, Split(s, sep)) == s
    decreases |s|
  {
    var i := IndexOf(s, sep);
    IndexOfFirst(s, sep);
    if i != -1 {
      var rest := s[i + |sep|..];
      JoinSplit(rest, sep);
      JoinCons(sep, s[..i], Split(rest, sep));
      AroundOccurrence(s, sep, i);
    }
  }

  lemma JoinCons(sep: string, a: string, parts: seq<string>)
    requires |parts| >= 1
    ensures Join(sep, [a] + parts) == a + sep + Join(sep, parts)
  {
    assert ([a] + parts)[1..] == parts;
  }

  lemma AroundOccurrence(s: string, sep: string, i: int)
    requires Occurs(s, sep, i)
    ensures s == s[..i] + sep + s[i + |sep|..]
  {
    assert s == s[..i] + s[i..i + |sep|] + s[i + |sep|..];
  }

  /** No piece of a split contains the separator. */
  lemma {:induction false} SplitPiecesFree(s: string, sep: string, k: nat, j: int)
    requires |sep| > 0
    requires k < |Split(s, sep)|
    ensures !Occurs(Split(s, sep)[k], sep, j)
    decreases |s|
  {
    var i := IndexOf(s, sep);
    IndexOfFirst(s, sep);
    if i != -1 {
      if k == 0 {
        PrefixFree(s, sep, i, j);
      } else {
        SplitPiecesFree(s[i + |sep|..], sep, k - 1, j);
      }
    }
  }

  lemma PrefixFree(s: string, sep: string, i: nat, j: int)
    requires |sep| > 0 && i <= |s|
    requires forall m :: 0 <= m < i ==> !Occurs(s, sep, m)
    ensures !Occurs(s[..i], sep, j)
  {
    if 0 <= j && j + |sep| <= i {
      assert s[..i][j..j + |sep|] == s[j..j + |sep|];
      assert !Occurs(s, sep, j);
    }
  }

  lemma OccursOffset(x: string, sep: string, off: nat, j: nat)
    requires off <= |x|
    ensures Occurs(x[off..], sep, j) <==> Occurs(x, sep, j + off)
  {
    if j + off + |sep| <= |x| {
      assert x[off..][j..j + |sep|] == x[j + off..j + off + |sep|];
    }
  }

  /**
   * The occurrence of `sep` at `m` in `s` is the last one the left-to-right scan
   * can cut at: no occurrence overlaps it from the left and none starts after it.
   */
  ghost predicate LastCut(s: string, sep: string, m: int)
  {
    (forall j :: m - |sep| < j < m ==> !Occurs(s, sep, j)) &&
    (forall j :: j > m ==> !Occurs(s, sep, j))
  }

  /** The last piece of a split is what follows the last separator the scan cuts at. */
  lemma SplitLastPiece(a: string, sep: string, b: string)
    requires |sep| > 0
    requires forall j :: |a| - |sep| < j < |a| ==> !Occurs(a + sep + b, sep, j)
    requires forall j :: j > |a| ==> !Occurs(a + sep + b, sep, j)
    ensures var parts := Split(a + sep + b, sep); parts[|parts| - 1] == b
  {
    var s := a + sep + b;
    assert s[|a|..|a| + |sep|] == sep;
    assert s[|a| + |sep|..] == b;
    SplitLastPieceAt(s, sep, |a|);
  }

  lemma {:induction false} SplitLastPieceAt(s: string, sep: string, m: nat)
    requires |sep| > 0 && Occurs(s, sep, m) && LastCut(s, sep, m)
    ensures var parts := Split(s, sep); parts[|parts| - 1] == s[m + |sep|..]
    decreases |s|
  {
    if IndexOf(s, sep) == m {
      SplitAtLastCut(s, sep, m);
    } else {
      FirstCutBeforeLast(s, sep, m);
      var off := IndexOf(s, sep) + |sep|;
      SuffixConditions(s, sep, off, m);
      OccursOffset(s, sep, off, m - off);
      var t := s[off..];
      SplitLastPieceAt(t, sep, m - off);
      SplitLastPieceShift(s, sep, m, off, t);
    }
  }

  /** The last piece after the first cut is the last piece of the whole. */
  lemma SplitLastPieceShift(s: string, sep: string, m: nat, off: nat, t: string)
    requires |sep| > 0 && IndexOf(s, sep) != -1 && off == IndexOf(s, sep) + |sep|
    requires off <= m && m + |sep| <= |s| && t == s[off..]
    requires var parts' := Split(t, sep); parts'[|parts'| - 1] == t[m - off + |sep|..]
    ensures var parts := Split(s, sep); parts[|parts| - 1] == s[m + |sep|..]
  {
    SplitLastAfterFirstCut(s, sep);
    assert t[m - off + |sep|..] == s[m + |sep|..];
  }

  /** When the scan does not first cut at its last cut, it first cuts before it. */
  lemma FirstCutBeforeLast(s: string, sep: string, m: nat)
    requires |sep| > 0 && Occurs(s, sep, m) && LastCut(s, sep, m) && IndexOf(s, sep) != m
    ensures 0 <= IndexOf(s, sep) && IndexOf(s, sep) + |sep| <= m
  {
    IndexOfFirst(s, sep);
    assert Occurs(s, sep, IndexOf(s, sep));
  }

  /** When the scan first cuts at its last cut, the second piece is the last. */
  lemma SplitAtLastCut(s: string, sep: string, m: nat)
    requires |sep| > 0 && IndexOf(s, sep) == m && Occurs(s, sep, m) && LastCut(s, sep, m)
    ensures var parts := Split(s, sep); parts[|parts| - 1] == s[m + |sep|..]
  {
    var off := m + |sep|;
    forall k | 0 <= k ensures !Occurs(s[off..], sep, k) {
      OccursOffset(s, sep, off, k);
    }
    IndexOfFirst(s[off..], sep);
    assert IndexOf(s[off..], sep) == -1;
  }

  /** Cutting at the first separator leaves the last piece where it was. */
  lemma SplitLastAfterFirstCut(s: string, sep: string)
    requires |sep| > 0 && IndexOf(s, sep) != -1
    ensures IndexOf(s, sep) + |sep| <= |s|
    ensures var parts := Split(s, sep); var parts' := Split(s[IndexOf(s, sep) + |sep|..], sep);
            parts[|parts| - 1] == parts'[|parts'| - 1]
  {
    IndexOfFirst(s, sep);
  }

  lemma SuffixConditions(s: string, sep: string, off: nat, m: nat)
    requires off <= m <= |s|
    requires LastCut(s, sep, m)
    ensures LastCut(s[off..], sep, m - off)
  {
    forall j | j > m - off ensures !Occurs(s[off..], sep, j) {
      OccursOffset(s, sep, off, j);
    }
    forall j | (m - off) - |sep| < j < m - off ensures !Occurs(s[off..], sep, j) {
      if j >= 0 { OccursOffset(s, sep, off, j); }
    }
  }

  /** Splitting on one character `c` that the first piece lacks peels that piece off. */
  lemma {:induction false} SplitOnChar(p: string, rest: string, c: char)
    requires c !in p
    ensures Split(p, [c]) == [p]
    ensures Split(p + [c] + rest, [c]) == [p] + Split(rest, [c])
  {
    forall i | 0 <= i < |p| ensures !Occurs(p, [c], i) {
      assert p[i] in p;
      assert p[i..i + 1] == [p[i]];
    }
    var s := p + [c] + rest;
    assert s[|p|..|p| + 1] == [c];
    forall i | 0 <= i < |p| ensures !Occurs(s, [c], i) {
      assert p[i] in p;
      assert s[i..i + 1] == [p[i]];
    }
    assert Occurs(s, [c], |p|);
    IndexOfFirst(p, [c]);
    IndexOfFirst(s, [c]);
    var idx := IndexOf(s, [c]);
    assert idx == |p|;
    assert s[..|p|] == p;
    assert s[|p| + 1..] == rest;
  }

  // ---------------------------------------------------------------------------
  // str.strip() and str.replace(c, '')
  // ---------------------------------------------------------------------------

  function LStrip(s: string): (r: string)
    ensures |r| <= |s|
    decreases |s|
  {
    if s != [] && IsSpace(s[0]) then LStrip(s[1..]) else s
  }

  function RStrip(s: string): (r: string)
    ensures |r| <= |s|
    decreases |s|
  {
    if s != [] && IsSpace(s[|s| - 1]) then RStrip(s[..|s| - 1]) else s
  }

  /** `s.strip()`: drop leading and trailing whitespace. */
  function Strip(s: string): string
  {
    RStrip(LStrip(s))
  }

  /** Stripping removes only leading and trailing whitespace and leaves none at either end. */
  lemma {:induction false} StripSpec(s: string)
    ensures var r := Strip(s);
            (r == [] || (!IsSpace(r[0]) && !IsSpace(r[|r| - 1]))) &&
            exists i, j :: 0 <= i <= j <= |s| && r == s[i..j] &&
              (forall k :: 0 <= k < i ==> IsSpace(s[k])) && (forall k :: j <= k < |s| ==> IsSpace(s[k]))
  {
    var i := LStripSpec(s);
    var l := LStrip(s);
    var j := RStripSpec(l);
    assert l[..j] == s[i..i + j];
  }

  lemma {:induction false} LStripSpec(s: string) returns (i: nat)
    ensures i <= |s| && LStrip(s) == s[i..]
    ensures LStrip(s) == [] || !IsSpace(LStrip(s)[0])
    ensures forall k :: 0 <= k < i ==> IsSpace(s[k])
    decreases |s|
  {
    if s != [] && IsSpace(s[0]) {
      var i' := LStripSpec(s[1..]);
      i := i' + 1;
      assert s[1..][i'..] == s[i..];
      forall k | 1 <= k < i ensures IsSpace(s[k]) { assert s[k] == s[1..][k - 1]; }
    } else {
      i := 0;
    }
  }

  lemma {:induction false} RStripSpec(s: string) returns (j: nat)
    ensures j <= |s| && RStrip(s) == s[..j]
    ensures RStrip(s) == [] || !IsSpace(RStrip(s)[|RStrip(s)| - 1])
    ensures forall k :: j <= k < |s| ==> IsSpace(s[k])
    decreases |s|
  {
    if s != [] && IsSpace(s[|s| - 1]) {
      j := RStripSpec(s[..|s| - 1]);
      assert s[..|s| - 1][..j] == s[..j];
    } else {
      j := |s|;
    }
  }

  lemma {:induction false} LStripPadded(w: string, x: string)
    requires AllSpace(w) && (x == [] || !IsSpace(x[0]))
    ensures LStrip(w + x) == x
    decreases |w|
  {
    if w == [] {
      assert w + x == x;
    } else {
      assert (w + x)[1..] == w[1..] + x;
      LStripPadded(w[1..], x);
    }
  }

  lemma {:induction false} RStripPadded(x: string, w: string)
    requires AllSpace(w) && (x == [] || !IsSpace(x[|x| - 1]))
    ensures RStrip(x + w) == x
    decreases |w|
  {
    if w == [] {
      assert x + w == x;
    } else {
      assert (x + w)[..|x + w| - 1] == x + w[..|w| - 1];
      RStripPadded(x, w[..|w| - 1]);
    }
  }

  /** Stripping whitespace padding off a text with no whitespace at either end gives back the text. */
  lemma StripPadded(w1: string, x: string, w2: string)
    requires AllSpace(w1) && AllSpace(w2)
    requires x == [] || (!IsSpace(x[0]) && !IsSpace(x[|x| - 1]))
    ensures Strip(w1 + x + w2) == x
  {
    assert w1 + x + w2 == w1 + (x + w2);
    if x == [] {
      assert x + w2 == w2 && w1 + w2 == (w1 + w2) + [];
      LStripPadded(w1 + w2, []);
    } else {
      LStripPadded(w1, x + w2);
      RStripPadded(x, w2);
    }
  }

  lemma StripNoSpaceEdges(s: string)
    requires s == [] || (!IsSpace(s[0]) && !IsSpace(s[|s| - 1]))
    ensures Strip(s) == s
  {
  }

  /** `s.replace(c, '')`. */
  function RemoveChar(s: string, c: char): (r: string)
    ensures |r| <= |s|
    decreases |s|
  {
    if s == [] then [] else (if s[0] == c then [] else [s[0]]) + RemoveChar(s[1..], c)
  }

  /** `s.replace(c, '')` leaves no `c` and keeps every other character as often as it occurs. */
  lemma {:induction false} RemoveCharSpec(s: string, c: char)
    ensures c !in RemoveChar(s, c)
    ensures forall x :: x != c ==> multiset(RemoveChar(s, c))[x] == multiset(s)[x]
    decreases |s|
  {
    if s != [] {
      RemoveCharSpec(s[1..], c);
      assert s == [s[0]] + s[1..];
    }
  }

  // ---------------------------------------------------------------------------
  // int(s) and str(n)
  // ---------------------------------------------------------------------------

  /** The value of a decimal numeral. */
  function DigitsValue(s: string): nat
    requires IsDigits(s)
    decreases |s|
  {
    if s == [] then 0 else DigitsValue(s[..|s| - 1]) * 10 + (s[|s| - 1] as int - '0' as int)
  }

  /**
   * `int(s)` on a string whose stripped form is a non-empty run of decimal digits;
   * `None` where Python raises ValueError.
   */
  function ParseInt(s: string): (r: Option<nat>)
    ensures r.Some? <==> Strip(s) != [] && IsDigits(Strip(s))
  {
    var t := Strip(s);
    if t != [] && IsDigits(t) then Some(DigitsValue(t)) else None
  }

  /** `str(n)`: the decimal numeral of `n`, without leading zeros. */
  function NatToString(n: nat): (s: string)
    ensures s != [] && IsDigits(s)
    ensures |s| > 1 ==> s[0] != '0'
  {
    if n < 10 then [DigitChar(n)] else NatToString(n / 10) + [DigitChar(n % 10)]
  }

  /** `int(str(n)) == n`. */
  lemma {:induction false} ParseIntNatToString(n: nat)
    ensures ParseInt(NatToString(n)) == Some(n)
  {
    var s := NatToString(n);
    DigitsValueNatToString(n);
    StripNoSpaceEdges(s);
  }

  lemma {:induction false} DigitsValueNatToString(n: nat)
    ensures DigitsValue(NatToString(n)) == n
  {
    if n >= 10 {
      DigitsValueNatToString(n / 10);
      var s := NatToString(n);
      assert s[..|s| - 1] == NatToString(n / 10);
    }
  }
}
