/**
 * `sortEntries` of the ingest handler: copy the entries into a fresh slice and
 * sort that slice in place with `sort.Slice`, using a "less" closure that
 * parses both dates with the layout "2006-01-02T15:04" and answers false as
 * soon as either of them fails to parse.
 */
module EntrySort {
  import opened Common
  import opened DateLayout

  /** The closure handed to `sort.Slice`, on two dates. */
  predicate DateLess(d1: string, d2: string)
    ensures DateLess(d1, d2) ==>
      Parse(d1).Some? && Parse(d2).Some? && Rank(Parse(d1).value) < Rank(Parse(d2).value)
  {
    match (Parse(d1), Parse(d2))
    case (Some(t1), Some(t2)) => BeforeIffRank(t1, t2); Before(t1, t2)
    case _ => false
  }

  /** The closure, on the two entries it is asked about. */
  predicate Less(e1: Entry, e2: Entry)
    ensures Less(e1, e2) ==> Parses(e1) && Parses(e2)
  {
    DateLess(e1.date, e2.date)
  }

  predicate Parses(e: Entry) {
    Parse(e.date).Some?
  }

  predicate AllDatesParse(s: seq<Entry>) {
    forall i :: 0 <= i < |s| ==> Parses(s[i])
  }

  /** No entry is strictly less than an entry before it. */
  predicate Sorted(s: seq<Entry>) {
    forall i, j :: 0 <= i < j < |s| ==> !Less(s[j], s[i])
  }

  // ---------------------------------------------------------------------
  // The closure's properties

  /** A pair with an unparsable date is never "less", in either order, so a
      bad date cannot make sorting fail. */
  lemma UnparsableNeverLess(e1: Entry, e2: Entry)
    requires !Parses(e1) || !Parses(e2)
    ensures !Less(e1, e2) && !Less(e2, e1)
  {
  }

  /** Between parsable dates the closure is Time.Before on the parsed instants. */
  lemma LessIsBefore(e1: Entry, e2: Entry)
    requires Parses(e1) && Parses(e2)
    ensures Less(e1, e2) <==> Before(Parse(e1.date).value, Parse(e2.date).value)
  {
  }

  lemma LessAsymmetric(e1: Entry, e2: Entry)
    ensures Less(e1, e2) ==> !Less(e2, e1)
  {
    if Less(e1, e2) {
      var t1, t2 := Parse(e1.date).value, Parse(e2.date).value;
      ParseSound(e1.date);
      ParseSound(e2.date);
      BeforeIffRank(t1, t2);
      BeforeIffRank(t2, t1);
    }
  }

  /** "Not less" is transitive between parsable dates. */
  lemma NotLessTransitive(e1: Entry, e2: Entry, e3: Entry)
    requires Parses(e1) && Parses(e2) && Parses(e3)
    requires !Less(e1, e2) && !Less(e2, e3)
    ensures !Less(e1, e3)
  {
    var t1, t2, t3 := Parse(e1.date).value, Parse(e2.date).value, Parse(e3.date).value;
    ParseSound(e1.date);
    ParseSound(e2.date);
    ParseSound(e3.date);
    BeforeIffRank(t1, t2);
    BeforeIffRank(t2, t3);
    BeforeIffRank(t1, t3);
  }

  /** Between parsable dates, "neither is less" means the same instant. */
  lemma NeitherLessIsSameInstant(e1: Entry, e2: Entry)
    requires Parses(e1) && Parses(e2)
    requires !Less(e1, e2) && !Less(e2, e1)
    ensures Parse(e1.date) == Parse(e2.date)
  {
    var t1, t2 := Parse(e1.date).value, Parse(e2.date).value;
    ParseSound(e1.date);
    ParseSound(e2.date);
    BeforeIffRank(t1, t2);
    BeforeIffRank(t2, t1);
  }

  /** A sorted sequence of parsable dates is non-decreasing in parsed time. */
  lemma SortedIsAscending(s: seq<Entry>, i: int, j: int)
    requires AllDatesParse(s) && Sorted(s)
    requires 0 <= i < j < |s|
    ensures var ti, tj := Parse(s[i].date).value, Parse(s[j].date).value;
      ti == tj || Before(ti, tj)
  {
    var ti, tj := Parse(s[i].date).value, Parse(s[j].date).value;
    assert Parses(s[i]) && Parses(s[j]);
    ParseSound(s[i].date);
    ParseSound(s[j].date);
    BeforeIffRank(ti, tj);
    BeforeIffRank(tj, ti);
  }

  // ---------------------------------------------------------------------
  // sort.Slice, in place, for any element type and closure

  ghost predicate Asymmetric<T(!new)>(less: (T, T) -> bool) {
    forall x, y :: less(x, y) ==> !less(y, x)
  }

  /** "Not less" is transitive among the given elements: together with
      asymmetry, the closure is a strict weak order on them. */
  ghost predicate NotLessTransitiveOn<T>(less: (T, T) -> bool, m: multiset<T>) {
    forall x, y, z :: x in m && y in m && z in m && !less(x, y) && !less(y, z) ==> !less(x, z)
  }

  /** The first n elements are in order: none is less than one before it. */
  predicate SortedPrefix<T>(s: seq<T>, n: int, less: (T, T) -> bool)
    requires n <= |s|
  {
    forall x, y :: 0 <= x < y < n ==> !less(s[y], s[x])
  }

  /** Exchanges two neighbouring elements. */
  method SwapAdjacent<T(==)>(a: array<T>, j: int)
    requires 0 < j < a.Length
    modifies a
    ensures a[..] == old(a[..])[j - 1 := old(a[j])][j := old(a[j - 1])]
    ensures multiset(a[..]) == multiset(old(a[..]))
  {
    a[j - 1], a[j] := a[j], a[j - 1];
  }

  /** Positions 0..i are in order, except possibly position j. */
  ghost predicate SortedExcept<T>(s: seq<T>, i: int, j: int, less: (T, T) -> bool)
    requires i < |s|
  {
    forall x, y :: 0 <= x < y <= i && x != j && y != j ==> !less(s[y], s[x])
  }

  /** The element at j is less than every element after it up to i. */
  ghost predicate LessThanRest<T>(s: seq<T>, i: int, j: int, less: (T, T) -> bool)
    requires 0 <= j <= i < |s|
  {
    forall y :: j < y <= i ==> less(s[j], s[y])
  }

  /** One swap of the insertion step keeps both facts, one position further left. */
  lemma {:induction false} SwapStep<T>(s: seq<T>, i: int, j: int, less: (T, T) -> bool, ok: bool)
    requires 0 < j <= i < |s|
    requires ok ==> SortedExcept(s, i, j, less)
    requires LessThanRest(s, i, j, less)
    requires less(s[j], s[j - 1])
    ensures var s' := s[j - 1 := s[j]][j := s[j - 1]];
      (ok ==> SortedExcept(s', i, j - 1, less)) && LessThanRest(s', i, j - 1, less)
  {
  }

  /** When the moving element stops, positions 0..i are in order. */
  lemma {:induction false} StepDone<T(!new)>(s: seq<T>, i: int, j: int, less: (T, T) -> bool)
    requires 0 <= j <= i < |s|
    requires Asymmetric(less)
    requires NotLessTransitiveOn(less, multiset(s))
    requires SortedExcept(s, i, j, less)
    requires LessThanRest(s, i, j, less)
    requires j == 0 || !less(s[j], s[j - 1])
    ensures SortedPrefix(s, i + 1, less)
  {
    forall x, y | 0 <= x < y <= i
      ensures !less(s[y], s[x])
    {
      if y == j && x < j - 1 {
        assert s[x] in multiset(s) && s[j - 1] in multiset(s) && s[j] in multiset(s);
      } else if x == j {
        assert less(s[x], s[y]);
      }
    }
  }

  /** Moves a[i] left past every element it is less than (one insertion step). */
  method Insert<T(==,!new)>(a: array<T>, i: nat, less: (T, T) -> bool, ghost ok: bool)
    requires i < a.Length
    requires Asymmetric(less)
    requires ok ==> NotLessTransitiveOn(less, multiset(a[..]))
    requires ok ==> SortedPrefix(a[..], i, less)
    modifies a
    ensures multiset(a[..]) == multiset(old(a[..]))
    ensures ok ==> SortedPrefix(a[..], i + 1, less)
  {
    var j := i;
    while j > 0 && less(a[j], a[j - 1])
      invariant 0 <= j <= i
      invariant multiset(a[..]) == multiset(old(a[..]))
      invariant ok ==> SortedExcept(a[..], i, j, less)
      invariant LessThanRest(a[..], i, j, less)
    {
      SwapStep(a[..], i, j, less, ok);
      SwapAdjacent(a, j);
      j := j - 1;
    }
    if ok {
      StepDone(a[..], i, j, less);
    }
  }

  /**
   * `sort.Slice(a, less)`. The library promises a permutation always, and
   * ascending order when `less` is a strict weak order on the elements; an
   * insertion sort by adjacent swaps keeps both promises (the library's own
   * pattern-defeating quicksort is not modelled).
   */
  method SortSlice<T(==,!new)>(a: array<T>, less: (T, T) -> bool)
    requires Asymmetric(less)
    modifies a
    ensures multiset(a[..]) == multiset(old(a[..]))
    ensures NotLessTransitiveOn(less, multiset(old(a[..]))) ==> SortedPrefix(a[..], a.Length, less)
  {
    ghost var ok := NotLessTransitiveOn(less, multiset(a[..]));
    var i := 0;
    while i < a.Length
      invariant 0 <= i <= a.Length
      invariant multiset(a[..]) == multiset(old(a[..]))
      invariant ok ==> SortedPrefix(a[..], i, less)
    {
      Insert(a, i, less, ok);
      i := i + 1;
    }
  }

  /** Every pair of parsable entries meets the closure's strict-weak-order conditions. */
  lemma LessIsWeakOrderOn(entries: seq<Entry>)
    requires AllDatesParse(entries)
    ensures NotLessTransitiveOn(Less, multiset(entries))
  {
    forall x, y, z | x in multiset(entries) && y in multiset(entries) && z in multiset(entries)
      && !Less(x, y) && !Less(y, z)
      ensures !Less(x, z)
    {
      assert x in entries && y in entries && z in entries;
      NotLessTransitive(x, y, z);
    }
  }

  /** A date written in the layout's own form parses to the instant it names. */
  lemma ParsesAs(t: DateTime, text: string)
    requires Valid(t) && Format(t) == text
    ensures Parse(text) == Some(t)
  {
    ParseFormat(t);
  }

  /** Three observations whose dates are written in the layout's own form
      for three successive instants, listed out of order: the only sorted
      arrangement of them is by instant. */
  lemma ThreeFormattedSortByInstant(s: seq<Entry>, t1: DateTime, t2: DateTime, t3: DateTime,
                                    v1: Value, v2: Value, v3: Value)
    requires Valid(t1) && Valid(t2) && Valid(t3)
    requires Before(t1, t2) && Before(t2, t3)
    requires multiset(s) == multiset([Entry(Format(t3), v3), Entry(Format(t1), v1), Entry(Format(t2), v2)])
    requires Sorted(s)
    ensures s == [Entry(Format(t1), v1), Entry(Format(t2), v2), Entry(Format(t3), v3)]
  {
    var e1, e2, e3 := Entry(Format(t1), v1), Entry(Format(t2), v2), Entry(Format(t3), v3);
    ParsesAs(t1, e1.date);
    ParsesAs(t2, e2.date);
    ParsesAs(t3, e3.date);
    BeforeIffRank(t1, t2);
    BeforeIffRank(t2, t3);
    BeforeIffRank(t1, t3);
    BeforeIffRank(t2, t1);
    BeforeIffRank(t3, t2);
    BeforeIffRank(t3, t1);
    assert Less(e1, e2) && Less(e2, e3) && Less(e1, e3);
    assert !Less(e2, e1) && !Less(e3, e2) && !Less(e3, e1);
    ThreeInOrder(s, e1, e2, e3, Less);
  }

  /** The one arrangement of three pairwise-ordered elements that is sorted. */
  lemma ThreeInOrder<T>(s: seq<T>, x: T, y: T, z: T, less: (T, T) -> bool)
    requires multiset(s) == multiset([z, x, y])
    requires less(x, y) && less(y, z) && less(x, z)
    requires !less(y, x) && !less(z, y) && !less(z, x)
    requires SortedPrefix(s, |s|, less)
    ensures s == [x, y, z]
  {
    assert |s| == 3 by {
      assert |multiset(s)| == 3;
    }
    assert x in multiset(s) && y in multiset(s) && z in multiset(s);
    var i :| 0 <= i < 3 && s[i] == x;
    var j :| 0 <= j < 3 && s[j] == y;
    var k :| 0 <= k < 3 && s[k] == z;
    assert i != j && j != k && i != k;
  }

  /** `sortEntries`: a fresh copy of the entries, sorted by `sort.Slice`; the
      caller's entries are a value and stay as they are. */
  method SortEntries(entries: seq<Entry>) returns (sorted: seq<Entry>)
    ensures |sorted| == |entries|
    ensures multiset(sorted) == multiset(entries)
    ensures AllDatesParse(entries) ==> Sorted(sorted)
  {
    var a := new Entry[|entries|](i requires 0 <= i < |entries| => entries[i]);
    assert a[..] == entries;
    forall x, y ensures Less(x, y) ==> !Less(y, x) {
      LessAsymmetric(x, y);
    }
    SortSlice(a, Less);
    sorted := a[..];
    if AllDatesParse(entries) {
      LessIsWeakOrderOn(entries);
    }
  }
}
