/** City search (`Api.searchCities`): the popular cities whose name contains
    the query, merged with the geocoding reply minus near-duplicates, ranked,
    and cut to fifteen. The network reply is an input; the function only
    reports whether a request would have been sent. */
module Search {
  import opened CityModel
  import opened Text
  import opened Ranking
  import Seqs

  /** At most this many suggestions are returned. */
  const MaxResults: nat := 15
  /** The geocoding service is asked only for queries at least this long. */
  const RemoteMinLength: nat := 2

  /** One entry of the geocoding `results` array; `country` may be absent. */
  datatype RemoteCity = RemoteCity(name: string, country: Option<string>, latitude: real, longitude: real)

  /** How the geocoding request ended: the fetch threw (network failure or
      unreadable JSON), the status was not ok, or a body arrived whose
      `results` field may be missing. */
  datatype GeocodingReply = FetchFailed | HttpError(status: int) | Body(results: Option<seq<RemoteCity>>)

  /** The ranked suggestions, and whether a geocoding request was issued. */
  datatype SearchResult = SearchResult(cities: seq<City>, requested: bool)

  /** The candidate built from a geocoding entry; a missing country becomes "". */
  function ToCity(r: RemoteCity): (c: City)
    ensures c.name == r.name && c.latitude == r.latitude && c.longitude == r.longitude
    ensures r.country == None ==> c.country == ""
    ensures r.country != None ==> c.country == r.country.value
  {
    City(r.name, r.country.GetOr(""), r.latitude, r.longitude)
  }

  /** The geocoding entries usable for the merge: none unless a body with a
      `results` array arrived. */
  function RemoteCandidates(reply: GeocodingReply): (r: seq<City>)
    ensures reply.Body? && reply.results.Some? ==>
      |r| == |reply.results.value| && forall i | 0 <= i < |r| :: r[i] == ToCity(reply.results.value[i])
    ensures !(reply.Body? && reply.results.Some?) ==> r == []
  {
    if reply.Body? && reply.results.Some? then
      var rs := reply.results.value;
      seq(|rs|, i requires 0 <= i < |rs| => ToCity(rs[i]))
    else []
  }

  /** The local filter: the name starts with or contains the query, both
      lower-cased. */
  predicate MatchesQuery(c: City, query: string)
  {
    StartsWith(Lower(c.name), Lower(query)) || Includes(Lower(c.name), Lower(query))
  }

  /** The prefix test adds nothing: the filter is a substring test. */
  lemma MatchesQueryIsSubstring(c: City, query: string)
    ensures MatchesQuery(c, query) <==> Includes(Lower(c.name), Lower(query))
  {
    if StartsWith(Lower(c.name), Lower(query)) {
      StartsWithIncludes(Lower(c.name), Lower(query));
    }
  }

  /** The popular cities that match the query, in list order. */
  function LocalCandidates(popular: seq<City>, query: string): (r: seq<City>)
    ensures forall c :: c in r <==> c in popular && Includes(Lower(c.name), Lower(query))
    ensures Seqs.IsSubsequence(r, popular)
    ensures forall c :: multiset(r)[c] == if Includes(Lower(c.name), Lower(query)) then multiset(popular)[c] else 0
  {
    var keep := (c: City) => MatchesQuery(c, query);
    Seqs.FilterIsSubsequence(popular, keep);
    var r := Seqs.Filter(popular, keep);
    assert forall c :: c in r <==> c in popular && keep(c) by {
      forall c
        ensures c in r <==> c in popular && keep(c)
      {
        if c in popular && keep(c) {
          var i :| 0 <= i < |popular| && popular[i] == c;
          assert popular[i] in r;
        }
      }
    }
    assert forall c :: keep(c) <==> Includes(Lower(c.name), Lower(query)) by {
      forall c
        ensures keep(c) <==> Includes(Lower(c.name), Lower(query))
      {
        MatchesQueryIsSubstring(c, query);
      }
    }
    r
  }

  /** Some entry of `collected` is a near-duplicate of `c`. */
  predicate Collides(collected: seq<City>, c: City)
  {
    exists x | x in collected :: NearCities(x, c)
  }

  /** Appends each geocoding candidate, in order, unless an entry collected so
      far (a local one or an earlier appended one) is a near-duplicate. The
      collected entries are kept as they are; only geocoding entries follow. */
  function Merge(collected: seq<City>, remote: seq<City>): (r: seq<City>)
    ensures |collected| <= |r| <= |collected| + |remote|
    ensures r[..|collected|] == collected
    ensures forall i | |collected| <= i < |r| :: r[i] in remote
    decreases |remote|
  {
    if |remote| == 0 then collected
    else
      var c := remote[0];
      var next := if Collides(collected, c) then collected else collected + [c];
      var r := Merge(next, remote[1..]);
      assert r[..|collected|] == r[..|next|][..|collected|];
      r
  }

  /** A geocoding entry is left out only when the merged list already holds a
      near-duplicate of it. */
  lemma {:induction false} MergeSkipsOnlyNearDuplicates(collected: seq<City>, remote: seq<City>)
    ensures var r := Merge(collected, remote);
      forall c | c in remote :: c in r || Collides(r, c)
    decreases |remote|
  {
    if |remote| > 0 {
      var c := remote[0];
      var next := if Collides(collected, c) then collected else collected + [c];
      var r := Merge(next, remote[1..]);
      MergeSkipsOnlyNearDuplicates(next, remote[1..]);
      assert r[..|next|] == next;
      if Collides(collected, c) {
        var x :| x in collected && NearCities(x, c);
        var k :| 0 <= k < |collected| && collected[k] == x;
        assert r[k] == x;
      } else {
        assert r[|collected|] == next[|collected|] == c;
      }
      assert forall x | x in remote :: x == c || x in remote[1..];
    }
  }

  /** Merging a reply in two parts is merging it at once: the second part
      sees everything the first part collected. */
  lemma {:induction false} MergeAppend(collected: seq<City>, a: seq<City>, b: seq<City>)
    ensures Merge(collected, a + b) == Merge(Merge(collected, a), b)
    decreases |a|
  {
    if |a| == 0 {
      assert a + b == b;
    } else {
      var c := a[0];
      var next := if Collides(collected, c) then collected else collected + [c];
      assert (a + b)[0] == c && (a + b)[1..] == a[1..] + b;
      MergeAppend(next, a[1..], b);
    }
  }

  /** First wins: the geocoding entry at position `k` is appended exactly when
      nothing merged before it (the local matches and the earlier appended
      entries) is a near-duplicate of it. */
  lemma MergeStep(collected: seq<City>, remote: seq<City>, k: nat)
    requires k < |remote|
    ensures var before := Merge(collected, remote[..k]);
      Merge(collected, remote[..k + 1])
        == if Collides(before, remote[k]) then before else before + [remote[k]]
  {
    assert remote[..k + 1] == remote[..k] + [remote[k]];
    MergeAppend(collected, remote[..k], [remote[k]]);
  }

  /** A geocoding entry that nothing merged before it collides with ends up
      in the merge. */
  lemma MergeKeepsFresh(collected: seq<City>, remote: seq<City>, k: nat)
    requires k < |remote|
    requires !Collides(Merge(collected, remote[..k]), remote[k])
    ensures remote[k] in Merge(collected, remote)
  {
    MergeStep(collected, remote, k);
    MergeOfPrefix(collected, remote, k + 1);
    InPrefix(Merge(collected, remote), Merge(collected, remote[..k + 1]));
  }

  /** Merging part of the reply yields a prefix of merging all of it. */
  lemma MergeOfPrefix(collected: seq<City>, remote: seq<City>, k: nat)
    requires k <= |remote|
    ensures var part := Merge(collected, remote[..k]);
      |part| <= |Merge(collected, remote)| && Merge(collected, remote)[..|part|] == part
  {
    assert remote[..k] + remote[k..] == remote;
    MergeAppend(collected, remote[..k], remote[k..]);
  }

  /** The last element of a prefix is an element of the whole. */
  lemma InPrefix(all: seq<City>, prefix: seq<City>)
    requires 0 < |prefix| <= |all| && all[..|prefix|] == prefix
    ensures prefix[|prefix| - 1] in all
  {
    assert all[|prefix| - 1] == prefix[|prefix| - 1];
  }

  /** Of two near-duplicate geocoding entries, the earlier one is kept. */
  lemma FirstOfTwoNearDuplicatesWins(c: City, d: City)
    requires NearCities(c, d)
    ensures Merge([], [c, d]) == [c]
  {
    NearCoordsSymmetric(c.latitude, c.longitude, d.latitude, d.longitude);
    assert [c] + [d] == [c, d];
    MergeAppend([], [c], [d]);
    assert Merge([], [c]) == Merge([c], []);
    assert [c][0] == c;
    assert Collides([c], d);
  }

  /** The appended entries keep the order of the reply. */
  lemma {:induction false} MergeKeepsReplyOrder(collected: seq<City>, remote: seq<City>)
    ensures Seqs.IsSubsequence(Merge(collected, remote)[|collected|..], remote)
    decreases |remote|
  {
    var r := Merge(collected, remote);
    if |remote| == 0 {
      assert r[|collected|..] == [];
    } else {
      var c := remote[0];
      var next := if Collides(collected, c) then collected else collected + [c];
      MergeKeepsReplyOrder(next, remote[1..]);
      assert r == Merge(next, remote[1..]);
      if Collides(collected, c) {
        Seqs.SubsequenceOfTail(r[|collected|..], remote);
      } else {
        assert r[..|next|] == next;
        var tail := r[|collected|..];
        assert tail[0] == c && tail[1..] == r[|next|..];
      }
    }
  }

  /** No entry from position `from` on is a near-duplicate of an entry
      before it. */
  predicate FreshFrom(r: seq<City>, from: nat)
  {
    forall i, j | 0 <= i < j < |r| && from <= j :: !NearCities(r[i], r[j])
  }

  /** Every appended entry is a near-duplicate of nothing before it. */
  lemma {:induction false} MergeAppendsOnlyFresh(collected: seq<City>, remote: seq<City>)
    ensures FreshFrom(Merge(collected, remote), |collected|)
    decreases |remote|
  {
    if |remote| > 0 {
      var c := remote[0];
      var next := if Collides(collected, c) then collected else collected + [c];
      var r := Merge(next, remote[1..]);
      MergeAppendsOnlyFresh(next, remote[1..]);
      assert Merge(collected, remote) == r;
      assert r[..|next|] == next;
      forall i, j | 0 <= i < j < |r| && |collected| <= j
        ensures !NearCities(r[i], r[j])
      {
        if j < |next| {
          assert next == collected + [c];
          assert !Collides(collected, c);
          assert j == |collected| && r[j] == c && r[i] == collected[i];
          assert collected[i] in collected;
        }
      }
    }
  }

  /** Keeps the first `n` elements (`slice(0, n)`). */
  function Take(s: seq<City>, n: nat): (r: seq<City>)
    ensures |r| <= n && |r| <= |s|
    ensures r == s[..|r|]
    ensures |s| <= n ==> r == s
  {
    if |s| <= n then s else s[..n]
  }

  /** What is ranked: the local matches, merged with the geocoding reply when
      the query is long enough for a request. */
  function Candidates(query: string, popular: seq<City>, reply: GeocodingReply): seq<City>
  {
    var local := LocalCandidates(popular, query);
    if |query| >= RemoteMinLength && reply.Body? && reply.results.Some? then
      Merge(local, RemoteCandidates(reply))
    else
      local
  }

  /** `searchCities`. An empty query or one shorter than `minLength` yields
      nothing and sends no request; otherwise the ranked candidates, at most
      fifteen, each a local match or a geocoding entry. */
  function SearchCities(query: string, minLength: nat, popular: seq<City>, reply: GeocodingReply): (r: SearchResult)
    ensures |query| == 0 || |query| < minLength ==> r == SearchResult([], false)
    ensures |query| > 0 && |query| >= minLength ==>
      r.cities == Take(SortAlphabetically(Candidates(query, popular, reply), query), MaxResults)
    ensures r.requested <==> |query| > 0 && |query| >= minLength && |query| >= RemoteMinLength
    ensures |r.cities| <= MaxResults
    ensures Sorted(r.cities, query)
    ensures forall c | c in r.cities :: c in LocalCandidates(popular, query) || c in RemoteCandidates(reply)
  {
    if |query| == 0 || |query| < minLength then SearchResult([], false)
    else
      var candidates := Candidates(query, popular, reply);
      var sorted := SortAlphabetically(candidates, query);
      var r := Take(sorted, MaxResults);
      TakeOfSortedIsSortedSubset(sorted, MaxResults, query);
      assert forall c | c in r :: c in LocalCandidates(popular, query) || c in RemoteCandidates(reply) by {
        forall c | c in r
          ensures c in LocalCandidates(popular, query) || c in RemoteCandidates(reply)
        {
          assert c in multiset(candidates);
        }
      }
      SearchResult(r, |query| >= RemoteMinLength)
  }

  /** The suggestions are the best `min(15, n)` of the `n` candidates: as
      many as fit, drawn from the candidates without inventing copies, and
      every candidate left out ranks no earlier than every suggestion. */
  lemma SearchIsTopOfRanking(query: string, minLength: nat, popular: seq<City>, reply: GeocodingReply)
    requires |query| > 0 && |query| >= minLength
    ensures var r := SearchCities(query, minLength, popular, reply).cities;
      var candidates := Candidates(query, popular, reply);
      && |r| == (if |candidates| <= MaxResults then |candidates| else MaxResults)
      && multiset(r) <= multiset(candidates)
      && forall x, y | x in multiset(candidates) - multiset(r) && y in r :: CompareCities(y, x, query) <= 0
  {
    var sorted := SortAlphabetically(Candidates(query, popular, reply), query);
    TakeOfSortedIsTop(sorted, MaxResults, query);
  }

  /** Cutting a sorted list leaves a sorted list of its elements. */
  lemma TakeOfSortedIsSortedSubset(sorted: seq<City>, n: nat, query: string)
    requires Sorted(sorted, query)
    ensures Sorted(Take(sorted, n), query)
    ensures forall c | c in Take(sorted, n) :: c in multiset(sorted)
  {
    var r := Take(sorted, n);
    forall i, j | 0 <= i < j < |r|
      ensures CompareCities(r[i], r[j], query) <= 0
    {
      assert r[i] == sorted[i] && r[j] == sorted[j];
    }
    forall c | c in r
      ensures c in multiset(sorted)
    {
      assert c in sorted;
    }
  }

  /** Cutting a sorted list keeps its best elements. */
  lemma TakeOfSortedIsTop(sorted: seq<City>, n: nat, query: string)
    requires Sorted(sorted, query)
    ensures var r := Take(sorted, n);
      && |r| == (if |sorted| <= n then |sorted| else n)
      && multiset(r) <= multiset(sorted)
      && forall x, y | x in multiset(sorted) - multiset(r) && y in r :: CompareCities(y, x, query) <= 0
  {
    var r := Take(sorted, n);
    var rest := sorted[|r|..];
    assert sorted == r + rest;
    assert multiset(sorted) == multiset(r) + multiset(rest);
    forall x, y | x in multiset(sorted) - multiset(r) && y in r
      ensures CompareCities(y, x, query) <= 0
    {
      assert x in multiset(rest);
      var j :| 0 <= j < |rest| && rest[j] == x;
      var i :| 0 <= i < |r| && r[i] == y;
      assert sorted[i] == y && sorted[|r| + j] == x;
    }
  }

  /** A geocoding entry with no near-duplicate among the entries merged
      before it is a candidate. */
  lemma FreshReplyEntryIsCandidate(query: string, popular: seq<City>, reply: GeocodingReply, k: nat)
    requires |query| >= RemoteMinLength && reply.Body? && reply.results.Some?
    requires k < |RemoteCandidates(reply)|
    requires var remote := RemoteCandidates(reply);
      !Collides(Merge(LocalCandidates(popular, query), remote[..k]), remote[k])
    ensures RemoteCandidates(reply)[k] in Candidates(query, popular, reply)
  {
    MergeKeepsFresh(LocalCandidates(popular, query), RemoteCandidates(reply), k);
  }

  /** When all candidates fit in fifteen, every fresh geocoding entry is
      suggested. */
  lemma FewCandidatesKeepEveryFreshReplyEntry(query: string, minLength: nat, popular: seq<City>, reply: GeocodingReply, k: nat)
    requires |query| >= minLength && |query| >= RemoteMinLength && reply.Body? && reply.results.Some?
    requires |Candidates(query, popular, reply)| <= MaxResults
    requires k < |RemoteCandidates(reply)|
    requires var remote := RemoteCandidates(reply);
      !Collides(Merge(LocalCandidates(popular, query), remote[..k]), remote[k])
    ensures RemoteCandidates(reply)[k] in SearchCities(query, minLength, popular, reply).cities
  {
    var candidates := Candidates(query, popular, reply);
    var c := RemoteCandidates(reply)[k];
    FreshReplyEntryIsCandidate(query, popular, reply, k);
    var sorted := SortAlphabetically(candidates, query);
    assert SearchCities(query, minLength, popular, reply).cities == sorted;
    assert c in multiset(candidates);
    assert c in multiset(sorted);
  }

  /** A failed request (network error, bad status, or no `results`) leaves
      exactly the ranked local matches, cut to fifteen. */
  lemma FailedReplyMeansLocalOnly(query: string, minLength: nat, popular: seq<City>, reply: GeocodingReply)
    requires |query| > 0 && |query| >= minLength
    requires reply.FetchFailed? || reply.HttpError? || (reply.Body? && reply.results.None?)
    ensures SearchCities(query, minLength, popular, reply).cities
         == Take(SortAlphabetically(LocalCandidates(popular, query), query), MaxResults)
  {
  }

  /** When the local matches and the geocoding entries fit in fifteen, no
      local match is lost. */
  lemma FewCandidatesKeepEveryLocal(query: string, minLength: nat, popular: seq<City>, reply: GeocodingReply)
    requires |query| > 0 && |query| >= minLength
    requires |LocalCandidates(popular, query)| + |RemoteCandidates(reply)| <= MaxResults
    ensures forall c | c in LocalCandidates(popular, query) :: c in SearchCities(query, minLength, popular, reply).cities
  {
    var local := LocalCandidates(popular, query);
    var candidates := Candidates(query, popular, reply);
    var sorted := SortAlphabetically(candidates, query);
    assert |candidates| <= MaxResults;
    assert SearchCities(query, minLength, popular, reply).cities == sorted;
    CandidatesNearOnlyLocal(query, popular, reply);
    PrefixSurvivesPermutation(local, candidates, sorted);
  }

  /** Every element of a prefix of `s` is in any permutation of `s`. */
  lemma PrefixSurvivesPermutation(prefix: seq<City>, s: seq<City>, permuted: seq<City>)
    requires |prefix| <= |s| && s[..|prefix|] == prefix
    requires multiset(permuted) == multiset(s)
    ensures forall c | c in prefix :: c in permuted
  {
    forall c | c in prefix
      ensures c in permuted
    {
      var k :| 0 <= k < |prefix| && prefix[k] == c;
      assert s[k] == c;
      assert c in multiset(s);
    }
  }

  /** In the merged candidates, an entry past the local part is a
      near-duplicate of no other entry. */
  lemma CandidatesNearOnlyLocal(query: string, popular: seq<City>, reply: GeocodingReply)
    ensures var local := LocalCandidates(popular, query);
      var candidates := Candidates(query, popular, reply);
      && candidates[..|local|] == local
      && forall i, j | 0 <= i < |candidates| && 0 <= j < |candidates| && i != j
           && (|local| <= i || |local| <= j) :: !NearCities(candidates[i], candidates[j])
  {
    var local := LocalCandidates(popular, query);
    var candidates := Candidates(query, popular, reply);
    if |query| >= RemoteMinLength && reply.Body? && reply.results.Some? {
      MergeAppendsOnlyFresh(local, RemoteCandidates(reply));
      forall i, j | 0 <= i < |candidates| && 0 <= j < |candidates| && i != j
        && (|local| <= i || |local| <= j)
        ensures !NearCities(candidates[i], candidates[j])
      {
        NearCoordsSymmetric(candidates[i].latitude, candidates[i].longitude,
                            candidates[j].latitude, candidates[j].longitude);
      }
    }
  }

  /** Every suggestion is one of the ranked candidates. */
  lemma SearchDrawsFromCandidates(query: string, minLength: nat, popular: seq<City>, reply: GeocodingReply)
    ensures forall c | c in SearchCities(query, minLength, popular, reply).cities ::
      c in Candidates(query, popular, reply)
  {
    if |query| > 0 && |query| >= minLength {
      var candidates := Candidates(query, popular, reply);
      var sorted := SortAlphabetically(candidates, query);
      forall c | c in SearchCities(query, minLength, popular, reply).cities
        ensures c in candidates
      {
        assert c in sorted;
        assert c in multiset(sorted);
      }
    }
  }

  /** Two different entries of `r` that are near-duplicates both belong to
      `local`. */
  predicate NearDuplicatesWithin(r: seq<City>, local: seq<City>)
  {
    forall x, y | x in r && y in r && x != y && NearCities(x, y) :: x in local && y in local
  }

  /** Near-duplicates are suppressed: two different suggestions that are
      within the radius of each other are both popular-list matches. */
  lemma OnlyLocalNearDuplicates(query: string, minLength: nat, popular: seq<City>, reply: GeocodingReply)
    ensures NearDuplicatesWithin(SearchCities(query, minLength, popular, reply).cities, LocalCandidates(popular, query))
  {
    SearchDrawsFromCandidates(query, minLength, popular, reply);
    CandidatesNearOnlyLocal(query, popular, reply);
    DrawnFromFreshTail(SearchCities(query, minLength, popular, reply).cities,
                       Candidates(query, popular, reply), LocalCandidates(popular, query));
  }

  /** Drawing from a list that opens with `local` and whose later entries are
      near-duplicates of nothing else leaves near-duplicates only in `local`. */
  lemma DrawnFromFreshTail(r: seq<City>, candidates: seq<City>, local: seq<City>)
    requires |local| <= |candidates| && candidates[..|local|] == local
    requires forall c | c in r :: c in candidates
    requires forall i, j | 0 <= i < |candidates| && 0 <= j < |candidates| && i != j
           && (|local| <= i || |local| <= j) :: !NearCities(candidates[i], candidates[j])
    ensures NearDuplicatesWithin(r, local)
  {
    forall x, y | x in r && y in r && x != y && NearCities(x, y)
      ensures x in local && y in local
    {
      var i :| 0 <= i < |candidates| && candidates[i] == x;
      var j :| 0 <= j < |candidates| && candidates[j] == y;
      assert i < |local| && j < |local|;
      assert local[i] == x && local[j] == y;
    }
  }

  /** Example: the query "Mos" against a popular "Moscow" and a geocoding
      "Moscow Oblast" a few thousandths of a degree away returns one entry,
      the popular "Moscow". */
  lemma MoscowExample()
    ensures var moscow := City("Moscow", "Russia", 55.7558, 37.6173);
      var oblast := RemoteCity("Moscow Oblast", Some("Russia"), 55.75, 37.62);
      SearchCities("Mos", 2, [moscow], Body(Some([oblast]))) == SearchResult([moscow], true)
  {
    var moscow := City("Moscow", "Russia", 55.7558, 37.6173);
    var oblast := RemoteCity("Moscow Oblast", Some("Russia"), 55.75, 37.62);
    assert Lower("Mos") == "mos";
    assert Lower(moscow.name) == "moscow";
    assert StartsWith(Lower(moscow.name), Lower("Mos"));
    assert MatchesQuery(moscow, "Mos");
    var local := LocalCandidates([moscow], "Mos");
    assert local == [moscow];
    var remote := RemoteCandidates(Body(Some([oblast])));
    assert remote == [ToCity(oblast)];
    assert NearCities(moscow, ToCity(oblast));
    assert Collides(local, ToCity(oblast));
    assert Merge(local, remote) == Merge(local, []);
    assert Candidates("Mos", [moscow], Body(Some([oblast]))) == [moscow];
    assert SortAlphabetically([moscow], "Mos") == [moscow];
  }
}
