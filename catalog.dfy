/** The chapter catalog of the browser client (script.js): search and filter
    predicate, verse-range normalisation, the four sort modes, pagination and
    the favorites list, with the page state the handlers mutate. */
module Catalog {
  import opened Wrappers
  import opened Text

  /** One chapter of the catalog. Text fields are "" where the catalog source
      gives none, and `versesCount` is 0 there: every use in the client reads
      them through `|| ''` and `|| 0`, which treat a missing value and the
      empty one alike. */
  datatype Surah = Surah(
    number: int,
    name: string,
    nameEnglish: string,
    nameArabic: string,
    versesCount: int,
    revelationPlace: string,
    audioUrl: string,
    alquranCloudAudioUrl: string,
    remoteAudioUrl: string)

  /** The snapshot of a chapter kept in the favorites list. */
  datatype Favorite = Favorite(number: int, name: string, nameArabic: string, versesCount: int, audioUrl: string)

  /** The length chips: `all`, `short`, `medium` and `long`. */
  datatype LengthFilter = AllLengths | Short | Medium | Long

  /** The sort select: `name`, `versesAsc`, `versesDesc`, and `number`, which
      is also what any other value falls back to. */
  datatype SortMode = ByName | VersesAsc | VersesDesc | ByNumber

  /** A verse bound as the state holds it: `null`, a number, or (in principle)
      a string still to be parsed. */
  datatype Bound = Missing | Num(n: int) | Raw(s: string)



  // ---------------------------------------------------------------- ranges

  /** The `normalize` helper of `getNormalizedVerseRange`. */
  function NormalizeBound(b: Bound): Option<int> {
    match b
    case Missing => None
    case Num(n) => Some(n)
    case Raw(s) => if s == "" then None else ParseInt10(s)
  }

  function ClampLow(b: Option<int>): Option<int> {
    if b.Some? then Some(AtLeastOne(b.value)) else b
  }

  /** `getNormalizedVerseRange`: each present bound is raised to at least 1,
      then the two are swapped when the minimum exceeds the maximum. */
  function NormalizeRange(minVerses: Bound, maxVerses: Bound): (r: (Option<int>, Option<int>))
    ensures r.0.Some? <==> NormalizeBound(minVerses).Some?
    ensures r.1.Some? <==> NormalizeBound(maxVerses).Some?
    ensures r.0.Some? ==> r.0.value >= 1
    ensures r.1.Some? ==> r.1.value >= 1
    ensures r.0.Some? && r.1.Some? ==> r.0.value <= r.1.value
  {
    var lo := ClampLow(NormalizeBound(minVerses));
    var hi := ClampLow(NormalizeBound(maxVerses));
    if lo.Some? && hi.Some? && lo.value > hi.value then (hi, lo) else (lo, hi)
  }

  /** A bound below 1 counts as 1. */
  function AtLeastOne(n: int): (r: int)
    ensures r >= 1 && r >= n
    ensures n >= 1 ==> r == n
  {
    if n < 1 then 1 else n
  }

  /** The values of the normalised range: a bound given alone is its parsed
      value raised to 1; two bounds are the two raised values, in order. */
  lemma NormalizeRangeValues(minVerses: Bound, maxVerses: Bound)
    ensures var a := NormalizeBound(minVerses);
      var b := NormalizeBound(maxVerses);
      var r := NormalizeRange(minVerses, maxVerses);
      && (a.Some? && b.None? ==> r.0 == Some(AtLeastOne(a.value)))
      && (a.None? && b.Some? ==> r.1 == Some(AtLeastOne(b.value)))
      && (a.Some? && b.Some? ==>
            multiset{r.0.value, r.1.value} == multiset{AtLeastOne(a.value), AtLeastOne(b.value)})
  {
  }

  /** Bounds below 1 are raised to 1 before any swap. */
  lemma NormalizeRangeClampsThenSwaps(lo: int, hi: int)
    ensures lo < 1 <= hi ==> NormalizeRange(Num(lo), Num(hi)) == (Some(1), Some(hi))
    ensures hi < 1 <= lo ==> NormalizeRange(Num(lo), Num(hi)) == (Some(1), Some(lo))
    ensures lo < 1 && hi < 1 ==> NormalizeRange(Num(lo), Num(hi)) == (Some(1), Some(1))
  {
  }

  /** A minimum above the maximum is swapped, after clamping. */
  lemma NormalizeRangeSwaps(lo: int, hi: int)
    requires lo > hi >= 1
    ensures NormalizeRange(Num(lo), Num(hi)) == (Some(hi), Some(lo))
  {
  }

  /** Bounds already in order and at least 1 are kept as they are. */
  lemma NormalizeRangeKeeps(lo: Option<int>, hi: Option<int>)
    requires lo.Some? ==> lo.value >= 1
    requires hi.Some? ==> hi.value >= 1
    requires lo.Some? && hi.Some? ==> lo.value <= hi.value
    ensures NormalizeRange(if lo.Some? then Num(lo.value) else Missing,
                           if hi.Some? then Num(hi.value) else Missing) == (lo, hi)
  {
  }

  /** Normalising a normalised range changes nothing. */
  lemma NormalizeRangeIdempotent(minVerses: Bound, maxVerses: Bound)
    ensures var r := NormalizeRange(minVerses, maxVerses);
      NormalizeRange(if r.0.Some? then Num(r.0.value) else Missing,
                     if r.1.Some? then Num(r.1.value) else Missing) == r
  {
    var r := NormalizeRange(minVerses, maxVerses);
    NormalizeRangeKeeps(r.0, r.1);
  }

  /** `handleVerseRangeInput`: a number is stored raised to at least 1, and
      anything `parseInt` cannot read clears the bound. */
  function RangeInput(rawValue: string): (r: Bound)
    ensures r.Missing? <==> ParseInt10(rawValue).None?
    ensures r.Num? ==> r.n >= 1 && r.n == if ParseInt10(rawValue).value < 1 then 1 else ParseInt10(rawValue).value
    ensures !r.Raw?
  {
    match ParseInt10(rawValue)
    case None => Missing
    case Some(v) => Num(if 1 > v then 1 else v)
  }

  // ---------------------------------------------------------------- filter

  /** Everything the filter predicate reads from the state. */
  datatype Criteria = Criteria(
    query: string,
    lengthFilter: LengthFilter,
    minRange: Option<int>,
    maxRange: Option<int>,
    favoritesOnly: bool,
    favorites: seq<Favorite>)

  predicate QueryMatches(query: string, s: Surah) {
    || query == ""
    || Contains(ToLower(s.name), query)
    || Contains(ToLower(s.nameArabic), query)
    || Contains(ToLower(s.nameEnglish), query)
    || Contains(ToLower(s.revelationPlace), query)
    || Contains(IntToString(s.number), query)
  }

  /** The three length tests of the filter, as written: each rejects. */
  predicate LengthRejects(f: LengthFilter, verses: int) {
    || (f == Short && verses > 40)
    || (f == Medium && (verses <= 40 || verses > 100))
    || (f == Long && verses <= 100)
  }

  predicate IsFavorite(favorites: seq<Favorite>, number: int) {
    exists i :: 0 <= i < |favorites| && favorites[i].number == number
  }

  /** The filter predicate of `filterAndDisplay`. */
  predicate Matches(c: Criteria, s: Surah) {
    var verses := s.versesCount;
    && QueryMatches(c.query, s)
    && !LengthRejects(c.lengthFilter, verses)
    && !(c.minRange.Some? && verses < c.minRange.value)
    && !(c.maxRange.Some? && verses > c.maxRange.value)
    && (c.favoritesOnly ==> IsFavorite(c.favorites, s.number))
  }

  /** `short` keeps up to 40 verses, `medium` 41 to 100, `long` more than 100,
      and `all` everything. */
  lemma LengthFilterRanges(verses: int)
    ensures !LengthRejects(Short, verses) <==> verses <= 40
    ensures !LengthRejects(Medium, verses) <==> 41 <= verses <= 100
    ensures !LengthRejects(Long, verses) <==> verses > 100
    ensures !LengthRejects(AllLengths, verses)
  {
  }

  /** A chapter passes exactly when the query occurs, the length chip keeps it,
      its verse count lies inside the present bounds (inclusive), and, in
      favorites-only mode, it is a favorite. */
  lemma MatchesExactly(c: Criteria, s: Surah)
    ensures Matches(c, s) <==>
      && QueryMatches(c.query, s)
      && (c.lengthFilter == Short ==> s.versesCount <= 40)
      && (c.lengthFilter == Medium ==> 41 <= s.versesCount <= 100)
      && (c.lengthFilter == Long ==> s.versesCount > 100)
      && (c.minRange.Some? ==> c.minRange.value <= s.versesCount)
      && (c.maxRange.Some? ==> s.versesCount <= c.maxRange.value)
      && (c.favoritesOnly ==> exists f :: f in c.favorites && f.number == s.number)
  {
    if c.favoritesOnly && (exists f :: f in c.favorites && f.number == s.number) {
      var f :| f in c.favorites && f.number == s.number;
      var i :| 0 <= i < |c.favorites| && c.favorites[i] == f;
    }
  }

  /** `allSourates.filter(...)`: the matching chapters, in catalog order. */
  function Filter(c: Criteria, all: seq<Surah>): (r: seq<Surah>)
    ensures |r| <= |all|
  {
    if all == [] then []
    else
      var rest := Filter(c, all[1..]);
      if Matches(c, all[0]) then [all[0]] + rest else rest
  }

  /** The filtered list takes each chapter of the catalog at most as often as
      the catalog has it. */
  lemma {:induction false} FilterSubset(c: Criteria, all: seq<Surah>)
    ensures multiset(Filter(c, all)) <= multiset(all)
    decreases |all|
  {
    if all != [] {
      FilterSubset(c, all[1..]);
      assert all == [all[0]] + all[1..];
    }
  }

  /** A chapter is in the filtered list exactly when it is in the catalog and
      passes the predicate. */
  lemma {:induction false} FilterMembers(c: Criteria, all: seq<Surah>, x: Surah)
    ensures x in Filter(c, all) <==> x in all && Matches(c, x)
    decreases |all|
  {
    if all != [] {
      FilterMembers(c, all[1..], x);
      assert all == [all[0]] + all[1..];
    }
  }

  /** The filtered list keeps every occurrence of a matching chapter and none
      of a failing one. */
  lemma {:induction false} FilterCounts(c: Criteria, all: seq<Surah>, x: Surah)
    ensures multiset(Filter(c, all))[x] == if Matches(c, x) then multiset(all)[x] else 0
    decreases |all|
  {
    if all != [] {
      FilterCounts(c, all[1..], x);
      assert all == [all[0]] + all[1..];
    }
  }

  /** Every position moved one place on. */
  function Shift(t: seq<nat>): (r: seq<nat>)
    ensures |r| == |t|
    ensures forall i :: 0 <= i < |t| ==> r[i] == t[i] + 1
  {
    seq(|t|, i requires 0 <= i < |t| => t[i] + 1)
  }

  /** The positions in the catalog of the chapters that pass the predicate. */
  function MatchingIndices(c: Criteria, all: seq<Surah>): seq<nat>
  {
    if all == [] then []
    else (if Matches(c, all[0]) then [0] else []) + Shift(MatchingIndices(c, all[1..]))
  }

  /** Item `i` of the filtered list is the chapter at the `i`-th matching position. */
  lemma {:induction false} FilterAtIndices(c: Criteria, all: seq<Surah>)
    ensures var idx := MatchingIndices(c, all);
      && |idx| == |Filter(c, all)|
      && forall i :: 0 <= i < |idx| ==> idx[i] < |all| && Filter(c, all)[i] == all[idx[i]]
    decreases |all|
  {
    if all != [] {
      FilterAtIndices(c, all[1..]);
      var t := MatchingIndices(c, all[1..]);
      var rt := Filter(c, all[1..]);
      var st := Shift(t);
      forall i | 0 <= i < |t| ensures st[i] < |all| && all[st[i]] == rt[i] {
        assert all[t[i] + 1] == all[1..][t[i]];
      }
      if Matches(c, all[0]) {
        var idx, r := MatchingIndices(c, all), Filter(c, all);
        assert idx == [0] + st;
        assert r == [all[0]] + rt;
        forall i | 0 <= i < |idx| ensures idx[i] < |all| && r[i] == all[idx[i]] {
          if i > 0 { assert idx[i] == st[i - 1] && r[i] == rt[i - 1]; }
        }
      } else {
        assert MatchingIndices(c, all) == st;
        assert Filter(c, all) == rt;
      }
    }
  }

  predicate Increasing(t: seq<nat>) {
    forall i, j :: 0 <= i < j < |t| ==> t[i] < t[j]
  }

  /** Shifting keeps positions increasing, and puts a 0 in front of them in order. */
  lemma ShiftIncreasing(t: seq<nat>)
    requires Increasing(t)
    ensures Increasing(Shift(t)) && Increasing([0] + Shift(t))
  {
    var u := [0] + Shift(t);
    forall i, j | 0 <= i < j < |u| ensures u[i] < u[j] {
      assert u[j] == t[j - 1] + 1;
      if i > 0 { assert u[i] == t[i - 1] + 1; }
    }
  }

  /** The matching positions increase. */
  lemma {:induction false} MatchingIndicesIncrease(c: Criteria, all: seq<Surah>)
    ensures Increasing(MatchingIndices(c, all))
    decreases |all|
  {
    if all != [] {
      MatchingIndicesIncrease(c, all[1..]);
      var t := MatchingIndices(c, all[1..]);
      ShiftIncreasing(t);
      assert [] + Shift(t) == Shift(t);
    }
  }

  /** The matching positions are exactly those whose chapter passes. */
  lemma {:induction false} MatchingIndicesExact(c: Criteria, all: seq<Surah>)
    ensures var idx := MatchingIndices(c, all);
      forall k :: 0 <= k < |all| ==> (Matches(c, all[k]) <==> k in idx)
    decreases |all|
  {
    if all != [] {
      var tail := all[1..];
      MatchingIndicesExact(c, tail);
      var t := MatchingIndices(c, tail);
      var st := Shift(t);
      forall k | 1 <= k < |all| ensures (k in st <==> k - 1 in t) {
        if k - 1 in t {
          var i :| 0 <= i < |t| && t[i] == k - 1;
          assert st[i] == k;
        }
      }
      var idx := MatchingIndices(c, all);
      assert idx == (if Matches(c, all[0]) then [0] else []) + st;
      forall k | 0 <= k < |all| ensures (Matches(c, all[k]) <==> k in idx) {
        if k == 0 {
          assert forall i :: 0 <= i < |st| ==> st[i] >= 1;
        } else {
          assert all[k] == tail[k - 1];
          assert k in idx <==> k in st;
        }
      }
    }
  }

  /** The filter keeps catalog order, as `Array.prototype.filter` does: item
      `i` of the result is the chapter at the `i`-th matching position, and
      the matching positions increase and are exactly those whose chapter
      passes. */
  lemma FilterKeepsOrder(c: Criteria, all: seq<Surah>)
    ensures var idx := MatchingIndices(c, all);
      var r := Filter(c, all);
      && |idx| == |r|
      && (forall i :: 0 <= i < |idx| ==> idx[i] < |all| && r[i] == all[idx[i]])
      && (forall i, j :: 0 <= i < j < |idx| ==> idx[i] < idx[j])
      && (forall k :: 0 <= k < |all| ==> (Matches(c, all[k]) <==> k in idx))
  {
    FilterAtIndices(c, all);
    MatchingIndicesIncrease(c, all);
    MatchingIndicesExact(c, all);
  }

  /** Without favorites-only mode the favorites list does not affect the filter. */
  lemma {:induction false} FilterIgnoresFavorites(c: Criteria, favorites: seq<Favorite>, all: seq<Surah>)
    requires !c.favoritesOnly
    ensures Filter(c.(favorites := favorites), all) == Filter(c, all)
    decreases |all|
  {
    if all != [] {
      FilterIgnoresFavorites(c, favorites, all[1..]);
      assert Matches(c.(favorites := favorites), all[0]) == Matches(c, all[0]);
    }
  }

  // ---------------------------------------------------------------- sort

  /** Code-point lexicographic order, standing in for `localeCompare`. */
  predicate StrLe(a: string, b: string) {
    a == [] || (b != [] && (a[0] < b[0] || (a[0] == b[0] && StrLe(a[1..], b[1..]))))
  }

  lemma {:induction false} StrLeTotal(a: string, b: string)
    ensures StrLe(a, b) || StrLe(b, a)
  {
    if a != [] && b != [] && a[0] == b[0] {
      StrLeTotal(a[1..], b[1..]);
    }
  }

  lemma {:induction false} StrLeTransitive(a: string, b: string, c: string)
    requires StrLe(a, b) && StrLe(b, c)
    ensures StrLe(a, c)
  {
    if a != [] && a[0] == b[0] && b[0] == c[0] {
      StrLeTransitive(a[1..], b[1..], c[1..]);
    }
  }

  /** "`a` may come before `b`" under each sort mode: the comparator of
      `sortSourates` returns a non-positive value. */
  predicate Le(mode: SortMode, a: Surah, b: Surah) {
    match mode
    case ByName => StrLe(a.name, b.name)
    case VersesAsc => a.versesCount <= b.versesCount
    case VersesDesc => b.versesCount <= a.versesCount
    case ByNumber => a.number <= b.number
  }

  lemma LeTotal(mode: SortMode, a: Surah, b: Surah)
    ensures Le(mode, a, b) || Le(mode, b, a)
  {
    if mode == ByName { StrLeTotal(a.name, b.name); }
  }

  lemma LeTransitive(mode: SortMode, a: Surah, b: Surah, c: Surah)
    requires Le(mode, a, b) && Le(mode, b, c)
    ensures Le(mode, a, c)
  {
    if mode == ByName { StrLeTransitive(a.name, b.name, c.name); }
  }

  predicate Sorted(mode: SortMode, s: seq<Surah>) {
    forall i, j :: 0 <= i < j < |s| ==> Le(mode, s[i], s[j])
  }

  /** Puts `x` before the first element it may precede. */
  function Insert(mode: SortMode, x: Surah, s: seq<Surah>): (r: seq<Surah>)
    ensures |r| == |s| + 1
  {
    if s == [] then [x]
    else if Le(mode, x, s[0]) then [x] + s
    else [s[0]] + Insert(mode, x, s[1..])
  }

  lemma {:induction false} InsertElements(mode: SortMode, x: Surah, s: seq<Surah>)
    ensures multiset(Insert(mode, x, s)) == multiset(s) + multiset{x}
    decreases |s|
  {
    if s != [] && !Le(mode, x, s[0]) {
      InsertElements(mode, x, s[1..]);
      assert s == [s[0]] + s[1..];
    }
  }

  lemma {:induction false} InsertSorted(mode: SortMode, x: Surah, s: seq<Surah>)
    requires Sorted(mode, s)
    ensures Sorted(mode, Insert(mode, x, s))
    decreases |s|
  {
    if s == [] {
    } else if Le(mode, x, s[0]) {
      var r := [x] + s;
      forall i, j | 0 <= i < j < |r| ensures Le(mode, r[i], r[j]) {
        if i == 0 && j > 1 { LeTransitive(mode, x, s[0], s[j - 1]); }
      }
    } else {
      LeTotal(mode, x, s[0]);
      var t := Insert(mode, x, s[1..]);
      InsertSorted(mode, x, s[1..]);
      InsertElements(mode, x, s[1..]);
      var r := [s[0]] + t;
      forall i, j | 0 <= i < j < |r| ensures Le(mode, r[i], r[j]) {
        if i == 0 {
          assert r[j] in multiset(t);
          if r[j] != x {
            var k :| 0 <= k < |s[1..]| && s[1..][k] == r[j];
            assert s[k + 1] == r[j];
          }
        }
      }
    }
  }

  /** `sortSourates`: a sorted copy of the list (the input is a value and is
      left as it is). The insertion keeps equal elements in their original
      order (`SortStable`). */
  function SortSourates(mode: SortMode, list: seq<Surah>): (r: seq<Surah>)
    ensures |r| == |list|
  {
    if list == [] then []
    else Insert(mode, list[0], SortSourates(mode, list[1..]))
  }

  /** The sorted list is a permutation of its input. */
  lemma {:induction false} SortPermutes(mode: SortMode, list: seq<Surah>)
    ensures multiset(SortSourates(mode, list)) == multiset(list)
    decreases |list|
  {
    if list != [] {
      SortPermutes(mode, list[1..]);
      InsertElements(mode, list[0], SortSourates(mode, list[1..]));
      assert list == [list[0]] + list[1..];
    }
  }

  /** Neither chapter must come before the other: the comparator gives 0. */
  predicate Tie(mode: SortMode, a: Surah, b: Surah) {
    Le(mode, a, b) && Le(mode, b, a)
  }

  /** The chapters of `s` that tie with `k`, in their order in `s`. */
  function TiesWith(mode: SortMode, k: Surah, s: seq<Surah>): (r: seq<Surah>)
    ensures |r| <= |s|
    ensures forall i :: 0 <= i < |r| ==> Tie(mode, k, r[i])
  {
    if s == [] then []
    else (if Tie(mode, k, s[0]) then [s[0]] else []) + TiesWith(mode, k, s[1..])
  }

  /** Insertion puts `x` ahead of the chapters it ties with. */
  lemma {:induction false} InsertTies(mode: SortMode, x: Surah, s: seq<Surah>, k: Surah)
    ensures TiesWith(mode, k, Insert(mode, x, s)) == (if Tie(mode, k, x) then [x] else []) + TiesWith(mode, k, s)
    decreases |s|
  {
    if s == [] {
    } else if Le(mode, x, s[0]) {
      assert ([x] + s)[1..] == s;
    } else {
      InsertTies(mode, x, s[1..], k);
      var r := [s[0]] + Insert(mode, x, s[1..]);
      assert r[1..] == Insert(mode, x, s[1..]);
      if Tie(mode, k, s[0]) && Tie(mode, k, x) {
        LeTransitive(mode, x, k, s[0]);
        assert false;
      }
    }
  }

  /** The sort is stable: the chapters that tie with any `k` keep their
      original relative order, as the stable `Array.prototype.sort` does. */
  lemma {:induction false} SortStable(mode: SortMode, list: seq<Surah>, k: Surah)
    ensures TiesWith(mode, k, SortSourates(mode, list)) == TiesWith(mode, k, list)
    decreases |list|
  {
    if list != [] {
      SortStable(mode, list[1..], k);
      InsertTies(mode, list[0], SortSourates(mode, list[1..]), k);
    }
  }

  /** Every earlier element may precede every later one under the mode. */
  lemma {:induction false} SortSorted(mode: SortMode, list: seq<Surah>)
    ensures Sorted(mode, SortSourates(mode, list))
    decreases |list|
  {
    if list != [] {
      SortSorted(mode, list[1..]);
      InsertSorted(mode, list[0], SortSourates(mode, list[1..]));
    }
  }

  /** `versesAsc` orders by non-decreasing verse count and `versesDesc` by
      non-increasing verse count. */
  lemma SortByVerses(list: seq<Surah>)
    ensures var r := SortSourates(VersesAsc, list);
      forall i, j :: 0 <= i < j < |r| ==> r[i].versesCount <= r[j].versesCount
    ensures var r := SortSourates(VersesDesc, list);
      forall i, j :: 0 <= i < j < |r| ==> r[i].versesCount >= r[j].versesCount
  {
    SortSorted(VersesAsc, list);
    SortSorted(VersesDesc, list);
    var a := SortSourates(VersesAsc, list);
    assert forall i, j :: 0 <= i < j < |a| ==> Le(VersesAsc, a[i], a[j]);
    var d := SortSourates(VersesDesc, list);
    assert forall i, j :: 0 <= i < j < |d| ==> Le(VersesDesc, d[i], d[j]);
  }

  predicate DistinctNumbers(s: seq<Surah>) {
    forall i, j :: 0 <= i < j < |s| ==> s[i].number != s[j].number
  }

  /** Putting a chapter in front keeps numbers distinct when its number is new. */
  lemma ConsDistinct(h: Surah, t: seq<Surah>)
    requires DistinctNumbers(t)
    requires forall k :: 0 <= k < |t| ==> t[k].number != h.number
    ensures DistinctNumbers([h] + t)
  {
    var r := [h] + t;
    assert forall j :: 1 <= j < |r| ==> r[j] == t[j - 1];
  }

  /** Every element of an insertion result is the inserted chapter or one of the list. */
  lemma InsertedFrom(mode: SortMode, x: Surah, s: seq<Surah>, j: nat)
    requires j < |Insert(mode, x, s)|
    ensures Insert(mode, x, s)[j] == x || exists k :: 0 <= k < |s| && s[k] == Insert(mode, x, s)[j]
  {
    var t := Insert(mode, x, s);
    InsertElements(mode, x, s);
    assert t[j] in multiset(t);
    assert t[j] in multiset(s) + multiset{x};
  }

  lemma {:induction false} InsertDistinct(mode: SortMode, x: Surah, s: seq<Surah>)
    requires DistinctNumbers(s)
    requires forall k :: 0 <= k < |s| ==> s[k].number != x.number
    ensures DistinctNumbers(Insert(mode, x, s))
    decreases |s|
  {
    if s == [] {
    } else if Le(mode, x, s[0]) {
      ConsDistinct(x, s);
    } else {
      var tail := s[1..];
      InsertDistinct(mode, x, tail);
      var t := Insert(mode, x, tail);
      forall j | 0 <= j < |t| ensures t[j].number != s[0].number {
        InsertedFrom(mode, x, tail, j);
        if t[j] != x {
          var k :| 0 <= k < |tail| && tail[k] == t[j];
          assert s[k + 1] == t[j];
        }
      }
      ConsDistinct(s[0], t);
    }
  }

  lemma {:induction false} SortDistinct(mode: SortMode, list: seq<Surah>)
    requires DistinctNumbers(list)
    ensures DistinctNumbers(SortSourates(mode, list))
    decreases |list|
  {
    if list != [] {
      SortDistinct(mode, list[1..]);
      var t := SortSourates(mode, list[1..]);
      SortPermutes(mode, list[1..]);
      forall i | 0 <= i < |t| ensures t[i].number != list[0].number {
        assert t[i] in multiset(list[1..]);
        var k :| 0 <= k < |list[1..]| && list[1..][k] == t[i];
        assert list[k + 1] == t[i];
      }
      InsertDistinct(mode, list[0], t);
    }
  }

  /** The default mode orders strictly by chapter number when the numbers are
      distinct, as they are in every catalog the client loads. */
  lemma SortByNumberStrict(list: seq<Surah>)
    requires DistinctNumbers(list)
    ensures var r := SortSourates(ByNumber, list);
      forall i, j :: 0 <= i < j < |r| ==> r[i].number < r[j].number
  {
    SortDistinct(ByNumber, list);
    SortSorted(ByNumber, list);
    var r := SortSourates(ByNumber, list);
    assert forall i, j :: 0 <= i < j < |r| ==> Le(ByNumber, r[i], r[j]);
  }

  // ---------------------------------------------------------------- pages

  /** `Math.ceil(n / itemsPerPage)`, with 12 chapters per page. */
  function MaxPages(n: nat): (r: nat)
    ensures r * 12 >= n
    ensures r == 0 || (r - 1) * 12 < n
  {
    (n + 11) / 12
  }

  /** The chapters `displaySourates` shows on a page. */
  function PageSlice(list: seq<Surah>, page: int): seq<Surah> {
    var start := (page - 1) * 12;
    JsSlice(list, start, start + 12)
  }

  /** A page never holds more than 12 chapters; chapter `i` of the list is
      item `i % 12` of page `i / 12 + 1`; pages past the last are empty. */
  lemma PageSliceContents(list: seq<Surah>, page: int)
    requires page >= 1
    ensures |PageSlice(list, page)| <= 12
    ensures forall k :: 0 <= k < |PageSlice(list, page)| ==>
      PageSlice(list, page)[k] == list[(page - 1) * 12 + k]
    ensures page <= MaxPages(|list|) ==> PageSlice(list, page) != []
    ensures page > MaxPages(|list|) ==> PageSlice(list, page) == []
  {
  }

  lemma EveryChapterOnAPage(list: seq<Surah>, i: int)
    requires 0 <= i < |list|
    ensures 1 <= i / 12 + 1 <= MaxPages(|list|)
    ensures PageSlice(list, i / 12 + 1)[i % 12] == list[i]
  {
    PageSliceContents(list, i / 12 + 1);
  }

  /** The page bounds the handlers keep: at least 1, and at most the number
      of pages when there is any. */
  predicate PageInRange(page: int, n: nat) {
    1 <= page && (page == 1 || page <= MaxPages(n))
  }

  // ---------------------------------------------------------------- favorites

  /** `favorites.findIndex(fav => fav.number === number)`. */
  function FindFavorite(favorites: seq<Favorite>, number: int): (r: Option<nat>)
    ensures r.None? <==> !IsFavorite(favorites, number)
    ensures r.Some? ==> r.value < |favorites| && favorites[r.value].number == number
    ensures r.Some? ==> forall j :: 0 <= j < r.value ==> favorites[j].number != number
  {
    if favorites == [] then None
    else if favorites[0].number == number then Some(0)
    else
      match FindFavorite(favorites[1..], number)
      case None => None
      case Some(k) => Some(k + 1)
  }

  function FavoriteOf(s: Surah): Favorite {
    Favorite(s.number, s.name, s.nameArabic, s.versesCount, s.audioUrl)
  }

  /** The favorites list after `toggleFavorite(surah)`: the first entry with
      that number is spliced out, or a snapshot of the chapter is pushed. */
  function Toggled(favorites: seq<Favorite>, s: Surah): (r: seq<Favorite>)
    ensures !IsFavorite(favorites, s.number) ==> r == favorites + [FavoriteOf(s)]
    ensures IsFavorite(favorites, s.number) ==>
      var i := FindFavorite(favorites, s.number).value;
      r == favorites[..i] + favorites[i + 1..]
  {
    match FindFavorite(favorites, s.number)
    case None => favorites + [FavoriteOf(s)]
    case Some(i) => favorites[..i] + favorites[i + 1..]
  }

  /** The entries of other chapters, in order. */
  function Others(favorites: seq<Favorite>, number: int): seq<Favorite> {
    if favorites == [] then []
    else (if favorites[0].number == number then [] else [favorites[0]]) + Others(favorites[1..], number)
  }

  lemma {:induction false} OthersAppend(a: seq<Favorite>, b: seq<Favorite>, number: int)
    ensures Others(a + b, number) == Others(a, number) + Others(b, number)
    decreases |a|
  {
    if a != [] {
      assert (a + b)[1..] == a[1..] + b;
      OthersAppend(a[1..], b, number);
    } else {
      assert a + b == b;
    }
  }

  /** Toggling a chapter never touches the entries of other chapters. */
  lemma ToggleKeepsOthers(favorites: seq<Favorite>, s: Surah)
    ensures Others(Toggled(favorites, s), s.number) == Others(favorites, s.number)
  {
    match FindFavorite(favorites, s.number)
    case None =>
      OthersAppend(favorites, [FavoriteOf(s)], s.number);
      assert Others([FavoriteOf(s)], s.number) == [];
    case Some(i) =>
      var before, after := favorites[..i], favorites[i + 1..];
      var tail := [favorites[i]] + after;
      assert favorites == before + tail;
      OthersAppend(before, tail, s.number);
      assert Others(tail, s.number) == Others(after, s.number) by {
        assert tail[1..] == after;
      }
      OthersAppend(before, after, s.number);
  }

  /** Toggling a chapter that is not a favorite twice restores the list. */
  lemma ToggleTwiceRestores(favorites: seq<Favorite>, s: Surah)
    requires !IsFavorite(favorites, s.number)
    ensures Toggled(Toggled(favorites, s), s) == favorites
  {
    var once := favorites + [FavoriteOf(s)];
    assert once[|favorites|].number == s.number;
    var i := FindFavorite(once, s.number).value;
    assert i == |favorites|;
    assert once[..i] == favorites;
  }

  predicate UniqueNumbers(favorites: seq<Favorite>) {
    forall i, j :: 0 <= i < j < |favorites| ==> favorites[i].number != favorites[j].number
  }

  /** With at most one entry per chapter, toggling flips whether the chapter
      is a favorite and keeps one entry per chapter. */
  lemma ToggleFlips(favorites: seq<Favorite>, s: Surah)
    requires UniqueNumbers(favorites)
    ensures IsFavorite(Toggled(favorites, s), s.number) <==> !IsFavorite(favorites, s.number)
    ensures UniqueNumbers(Toggled(favorites, s))
  {
    var r := Toggled(favorites, s);
    if IsFavorite(favorites, s.number) {
      var i := FindFavorite(favorites, s.number).value;
      forall j | 0 <= j < |r| ensures r[j].number != s.number {
        var j' := if j < i then j else j + 1;
        assert r[j] == favorites[j'];
      }
      forall a, b | 0 <= a < b < |r| ensures r[a].number != r[b].number {
        var a' := if a < i then a else a + 1;
        var b' := if b < i then b else b + 1;
        assert r[a] == favorites[a'] && r[b] == favorites[b'];
      }
    } else {
      assert r[|favorites|].number == s.number;
    }
  }

  // ---------------------------------------------------------------- state

  /** The catalog part of the client's `state` object. */
  class CatalogState {
    var allSourates: seq<Surah>
    var displayedSourates: seq<Surah>
    var currentPage: int
    var searchQuery: string
    var searchQueryRaw: string
    var lengthFilter: LengthFilter
    var minVerses: Bound
    var maxVerses: Bound
    var favoritesOnly: bool
    var sortMode: SortMode
    var favorites: seq<Favorite>

    /** What `filterAndDisplay` reads from the state. */
    function CurrentCriteria(): Criteria
      reads this`searchQuery, this`lengthFilter, this`minVerses, this`maxVerses
      reads this`favoritesOnly, this`favorites, this`sortMode
    {
      var range := NormalizeRange(minVerses, maxVerses);
      Criteria(Trim(searchQuery), lengthFilter, range.0, range.1, favoritesOnly, favorites)
    }

    /** The sorted, filtered catalog the current state selects. */
    function View(): seq<Surah>
      reads this`allSourates, this`searchQuery, this`lengthFilter, this`minVerses, this`maxVerses
      reads this`favoritesOnly, this`favorites, this`sortMode
    {
      SortSourates(sortMode, Filter(CurrentCriteria(), allSourates))
    }

    /** The displayed list is always the view of the current filters, and the
        page is one of its pages. */
    predicate Valid()
      reads this
    {
      displayedSourates == View() && PageInRange(currentPage, |displayedSourates|)
    }

    /** The initial state with the loaded catalog and stored favorites, after
        the first `filterAndDisplay`. */
    constructor (catalog: seq<Surah>, storedFavorites: seq<Favorite>)
      ensures allSourates == catalog && favorites == storedFavorites
      ensures searchQuery == "" && searchQueryRaw == "" && lengthFilter == AllLengths
      ensures minVerses == Missing && maxVerses == Missing
      ensures !favoritesOnly && sortMode == ByNumber
      ensures currentPage == 1
      ensures Valid()
    {
      allSourates := catalog;
      favorites := storedFavorites;
      searchQuery := "";
      searchQueryRaw := "";
      lengthFilter := AllLengths;
      minVerses := Missing;
      maxVerses := Missing;
      favoritesOnly := false;
      sortMode := ByNumber;
      currentPage := 1;
      new;
      displayedSourates := View();
    }

    /** `filterAndDisplay`: recomputes the displayed list and returns to page 1. */
    method FilterAndDisplay()
      modifies this
      ensures displayedSourates == View() && currentPage == 1
      ensures Valid()
      ensures allSourates == old(allSourates) && favorites == old(favorites)
      ensures searchQuery == old(searchQuery) && searchQueryRaw == old(searchQueryRaw)
      ensures lengthFilter == old(lengthFilter) && sortMode == old(sortMode)
      ensures minVerses == old(minVerses) && maxVerses == old(maxVerses)
      ensures favoritesOnly == old(favoritesOnly)
    {
      displayedSourates := SortSourates(sortMode, Filter(CurrentCriteria(), allSourates));
      currentPage := 1;
    }

    /** The previous-page button. */
    method PrevPage()
      requires Valid()
      modifies this
      ensures currentPage == if old(currentPage) > 1 then old(currentPage) - 1 else old(currentPage)
      ensures unchanged(this`allSourates, this`displayedSourates, this`favorites, this`searchQuery)
      ensures unchanged(this`searchQueryRaw, this`lengthFilter, this`minVerses, this`maxVerses)
      ensures unchanged(this`favoritesOnly, this`sortMode)
      ensures Valid()
    {
      if currentPage > 1 {
        currentPage := currentPage - 1;
      }
    }

    /** The next-page button. */
    method NextPage()
      requires Valid()
      modifies this
      ensures currentPage == if old(currentPage) < MaxPages(|displayedSourates|) then old(currentPage) + 1 else old(currentPage)
      ensures unchanged(this`allSourates, this`displayedSourates, this`favorites, this`searchQuery)
      ensures unchanged(this`searchQueryRaw, this`lengthFilter, this`minVerses, this`maxVerses)
      ensures unchanged(this`favoritesOnly, this`sortMode)
      ensures Valid()
    {
      var maxPages := MaxPages(|displayedSourates|);
      if currentPage < maxPages {
        currentPage := currentPage + 1;
      }
    }

    /** The slice `displaySourates` renders: at most 12 chapters, never empty
        while the displayed list is not. */
    method DisplaySourates() returns (page: seq<Surah>)
      requires Valid()
      ensures page == PageSlice(displayedSourates, currentPage)
      ensures |page| <= 12
      ensures displayedSourates != [] ==> page != []
      ensures forall k :: 0 <= k < |page| ==> page[k] == displayedSourates[(currentPage - 1) * 12 + k]
    {
      PageSliceContents(displayedSourates, currentPage);
      var start := (currentPage - 1) * 12;
      page := JsSlice(displayedSourates, start, start + 12);
    }

    /** `toggleFavorite`: splices out or pushes the chapter; in favorites-only
        mode the list is refiltered, otherwise the page stays as it is. */
    method ToggleFavorite(s: Surah)
      requires Valid()
      modifies this
      ensures favorites == Toggled(old(favorites), s)
      ensures Valid()
      ensures !favoritesOnly ==> displayedSourates == old(displayedSourates) && currentPage == old(currentPage)
      ensures favoritesOnly ==> currentPage == 1
      ensures unchanged(this`allSourates, this`searchQuery, this`searchQueryRaw, this`lengthFilter)
      ensures unchanged(this`minVerses, this`maxVerses, this`favoritesOnly, this`sortMode)
    {
      var before := CurrentCriteria();
      favorites := Toggled(favorites, s);
      if favoritesOnly {
        FilterAndDisplay();
      } else {
        FilterIgnoresFavorites(before, favorites, allSourates);
        assert CurrentCriteria() == before.(favorites := favorites);
      }
    }

    /** `handleVerseRangeInput` for the minimum (`isMin`) or maximum bound. */
    method HandleVerseRangeInput(isMin: bool, rawValue: string)
      modifies this
      ensures isMin ==> minVerses == RangeInput(rawValue) && maxVerses == old(maxVerses)
      ensures !isMin ==> maxVerses == RangeInput(rawValue) && minVerses == old(minVerses)
      ensures unchanged(this`allSourates, this`favorites, this`searchQuery, this`searchQueryRaw)
      ensures unchanged(this`lengthFilter, this`favoritesOnly, this`sortMode)
      ensures displayedSourates == View() && currentPage == 1
      ensures Valid()
    {
      if isMin {
        minVerses := RangeInput(rawValue);
      } else {
        maxVerses := RangeInput(rawValue);
      }
      FilterAndDisplay();
    }

    /** `setLengthFilter`: clicking the active chip other than `all` turns the
        filter back to `all`. */
    method SetLengthFilter(key: LengthFilter)
      modifies this
      ensures lengthFilter == if old(lengthFilter) == key && key != AllLengths then AllLengths else key
      ensures unchanged(this`allSourates, this`favorites, this`searchQuery, this`searchQueryRaw)
      ensures unchanged(this`minVerses, this`maxVerses, this`favoritesOnly, this`sortMode)
      ensures displayedSourates == View() && currentPage == 1
      ensures Valid()
    {
      if lengthFilter == key && key != AllLengths {
        lengthFilter := AllLengths;
      } else {
        lengthFilter := key;
      }
      FilterAndDisplay();
    }

    /** The search box: the trimmed text is kept, and its lower-case form is
        what the filter matches. */
    method SetSearchInput(value: string)
      modifies this
      ensures searchQueryRaw == Trim(value) && searchQuery == ToLower(Trim(value))
      ensures unchanged(this`allSourates, this`favorites, this`lengthFilter)
      ensures unchanged(this`minVerses, this`maxVerses, this`favoritesOnly, this`sortMode)
      ensures displayedSourates == View() && currentPage == 1
      ensures Valid()
    {
      searchQueryRaw := Trim(value);
      searchQuery := ToLower(searchQueryRaw);
      FilterAndDisplay();
    }

    /** The clear-search button. */
    method ClearSearch()
      modifies this
      ensures searchQueryRaw == "" && searchQuery == ""
      ensures unchanged(this`allSourates, this`favorites, this`lengthFilter)
      ensures unchanged(this`minVerses, this`maxVerses, this`favoritesOnly, this`sortMode)
      ensures displayedSourates == View() && currentPage == 1
      ensures Valid()
    {
      searchQuery := "";
      searchQueryRaw := "";
      FilterAndDisplay();
    }

    /** The favorites-only toggle. */
    method SetFavoritesOnly(checked: bool)
      modifies this
      ensures favoritesOnly == checked
      ensures unchanged(this`allSourates, this`favorites, this`searchQuery, this`searchQueryRaw)
      ensures unchanged(this`minVerses, this`maxVerses, this`lengthFilter, this`sortMode)
      ensures displayedSourates == View() && currentPage == 1
      ensures Valid()
    {
      favoritesOnly := checked;
      FilterAndDisplay();
    }

    /** The sort select. */
    method SetSortMode(mode: SortMode)
      modifies this
      ensures sortMode == mode
      ensures unchanged(this`allSourates, this`favorites, this`searchQuery, this`searchQueryRaw)
      ensures unchanged(this`minVerses, this`maxVerses, this`lengthFilter, this`favoritesOnly)
      ensures displayedSourates == View() && currentPage == 1
      ensures Valid()
    {
      sortMode := mode;
      FilterAndDisplay();
    }

    /** `resetFilters`: every filter back to its initial value, so the whole
        catalog is shown in chapter order from page 1. */
    method ResetFilters()
      modifies this
      ensures searchQuery == "" && searchQueryRaw == "" && lengthFilter == AllLengths
      ensures minVerses == Missing && maxVerses == Missing
      ensures !favoritesOnly && sortMode == ByNumber
      ensures unchanged(this`allSourates, this`favorites)
      ensures displayedSourates == SortSourates(ByNumber, allSourates) && currentPage == 1
      ensures Valid()
    {
      searchQuery := "";
      searchQueryRaw := "";
      lengthFilter := AllLengths;
      minVerses := Missing;
      maxVerses := Missing;
      favoritesOnly := false;
      sortMode := ByNumber;
      currentPage := 1;
      FilterAndDisplay();
      ResetCriteriaKeepAll(CurrentCriteria(), allSourates);
    }
  }

  /** With no query, no length chip, no bounds and favorites-only off, every
      chapter passes the filter. */
  lemma {:induction false} ResetCriteriaKeepAll(c: Criteria, all: seq<Surah>)
    requires c.query == "" && c.lengthFilter == AllLengths
    requires c.minRange.None? && c.maxRange.None? && !c.favoritesOnly
    ensures Filter(c, all) == all
  {
    if all != [] {
      ResetCriteriaKeepAll(c, all[1..]);
    }
  }
}
