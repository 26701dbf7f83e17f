/** Ranking of search candidates (`Utils.sortAlphabetically`): names that
    start with the query come first; prefix matches are ordered by what
    follows the query, the others by their whole lower-cased name. */
module Ranking {
  import opened CityModel
  import opened Text

  /** The lower-cased name starts with the lower-cased query. */
  predicate IsPrefixMatch(c: City, query: string)
  {
    StartsWith(Lower(c.name), Lower(query))
  }

  /** The sort comparator: negative when `a` goes first, positive when `b`
      does, zero for a tie. */
  function CompareCities(a: City, b: City, query: string): (r: int)
    ensures -1 <= r <= 1
    ensures IsPrefixMatch(a, query) && !IsPrefixMatch(b, query) ==> r < 0
    ensures !IsPrefixMatch(a, query) && IsPrefixMatch(b, query) ==> r > 0
  {
    var queryLower := Lower(query);
    var aName := Lower(a.name);
    var bName := Lower(b.name);
    var aStarts := StartsWith(aName, queryLower);
    var bStarts := StartsWith(bName, queryLower);
    if aStarts && !bStarts then -1
    else if !aStarts && bStarts then 1
    else if aStarts && bStarts then
      Compare(Substring(aName, |query|), Substring(bName, |query|))
    else
      Compare(aName, bName)
  }

  /** What follows the query in a prefix match's lower-cased name. */
  function Remainder(c: City, query: string): string
  {
    Substring(Lower(c.name), |query|)
  }

  /** Two prefix matches are ordered lexicographically by the text after the
      matched query, and tie exactly when those texts agree. */
  lemma PrefixMatchesByRemainder(a: City, b: City, query: string)
    requires IsPrefixMatch(a, query) && IsPrefixMatch(b, query)
    ensures Lower(a.name) == Lower(query) + Remainder(a, query)
    ensures Lower(b.name) == Lower(query) + Remainder(b, query)
    ensures CompareCities(a, b, query) < 0 <==> LexLess(Remainder(a, query), Remainder(b, query))
    ensures CompareCities(a, b, query) == 0 <==> Remainder(a, query) == Remainder(b, query)
  {
    SubstringAfterPrefix(Lower(a.name), Lower(query));
    SubstringAfterPrefix(Lower(b.name), Lower(query));
    CompareIsLexicographic(Remainder(a, query), Remainder(b, query));
    CompareZeroIffEqual(Remainder(a, query), Remainder(b, query));
  }

  /** Two names that do not start with the query are ordered
      lexicographically by their whole lower-cased names. */
  lemma OthersByFullName(a: City, b: City, query: string)
    requires !IsPrefixMatch(a, query) && !IsPrefixMatch(b, query)
    ensures CompareCities(a, b, query) < 0 <==> LexLess(Lower(a.name), Lower(b.name))
    ensures CompareCities(a, b, query) == 0 <==> Lower(a.name) == Lower(b.name)
  {
    CompareIsLexicographic(Lower(a.name), Lower(b.name));
    CompareZeroIffEqual(Lower(a.name), Lower(b.name));
  }

  /** The comparator is sign-antisymmetric. */
  lemma CompareCitiesAntisymmetric(a: City, b: City, query: string)
    ensures CompareCities(a, b, query) == -CompareCities(b, a, query)
  {
    CompareAntisymmetric(Remainder(a, query), Remainder(b, query));
    CompareAntisymmetric(Lower(a.name), Lower(b.name));
  }

  /** "Goes no later than" is transitive. */
  lemma CompareCitiesTransitive(a: City, b: City, c: City, query: string)
    requires CompareCities(a, b, query) <= 0 && CompareCities(b, c, query) <= 0
    ensures CompareCities(a, c, query) <= 0
  {
    if IsPrefixMatch(a, query) && IsPrefixMatch(c, query) {
      CompareTransitive(Remainder(a, query), Remainder(b, query), Remainder(c, query));
    } else if !IsPrefixMatch(a, query) && !IsPrefixMatch(c, query) {
      CompareTransitive(Lower(a.name), Lower(b.name), Lower(c.name));
    }
  }

  /** Every element goes no later than every element after it. */
  predicate Sorted(cities: seq<City>, query: string)
  {
    forall i, j | 0 <= i < j < |cities| :: CompareCities(cities[i], cities[j], query) <= 0
  }

  /** An element that goes no later than the head of a sorted list may be
      put in front of it. */
  lemma SortedCons(c: City, sorted: seq<City>, query: string)
    requires Sorted(sorted, query)
    requires |sorted| > 0 ==> CompareCities(c, sorted[0], query) <= 0
    ensures Sorted([c] + sorted, query)
  {
    var r := [c] + sorted;
    forall i, j | 0 <= i < j < |r|
      ensures CompareCities(r[i], r[j], query) <= 0
    {
      if i == 0 && j > 1 {
        CompareCitiesTransitive(c, sorted[0], sorted[j - 1], query);
      }
    }
  }

  /** Places `c` before the first element it does not follow; on a tie `c`
      stays in front. */
  function Insert(c: City, sorted: seq<City>, query: string): (r: seq<City>)
    requires Sorted(sorted, query)
    ensures multiset(r) == multiset(sorted) + multiset{c}
    ensures Sorted(r, query)
  {
    if |sorted| == 0 then [c]
    else if CompareCities(c, sorted[0], query) <= 0 then
      SortedCons(c, sorted, query);
      [c] + sorted
    else
      var rest := Insert(c, sorted[1..], query);
      InsertBehindHead(c, sorted, rest, query);
      [sorted[0]] + rest
  }

  /** The head of a sorted list goes no later than anything in the list
      obtained by inserting, into its tail, an element that follows it. */
  lemma InsertBehindHead(c: City, sorted: seq<City>, rest: seq<City>, query: string)
    requires |sorted| > 0 && Sorted(sorted, query)
    requires CompareCities(c, sorted[0], query) > 0
    requires multiset(rest) == multiset(sorted[1..]) + multiset{c}
    requires Sorted(rest, query)
    ensures multiset([sorted[0]] + rest) == multiset(sorted) + multiset{c}
    ensures Sorted([sorted[0]] + rest, query)
  {
    assert sorted == [sorted[0]] + sorted[1..];
    CompareCitiesAntisymmetric(c, sorted[0], query);
    if |rest| > 0 {
      assert rest[0] in multiset(rest);
      if rest[0] != c {
        assert rest[0] in multiset(sorted[1..]);
        var j :| 0 <= j < |sorted[1..]| && sorted[1..][j] == rest[0];
        assert sorted[j + 1] == rest[0];
      }
    }
    SortedCons(sorted[0], rest, query);
  }

  /** `sortAlphabetically`: an insertion sort under `CompareCities`.
      The result is a permutation of the input in comparator order. */
  function SortAlphabetically(cities: seq<City>, query: string): (r: seq<City>)
    ensures multiset(r) == multiset(cities)
    ensures Sorted(r, query)
  {
    if |cities| == 0 then []
    else
      assert cities == [cities[0]] + cities[1..];
      Insert(cities[0], SortAlphabetically(cities[1..], query), query)
  }

  /** In the sorted result every prefix match precedes every other name. */
  lemma SortPutsPrefixMatchesFirst(cities: seq<City>, query: string)
    ensures var r := SortAlphabetically(cities, query);
      forall i, j | 0 <= i < j < |r| && IsPrefixMatch(r[j], query) :: IsPrefixMatch(r[i], query)
  {
  }
}
