/** The catalog filter behind `searchFlights` (src/context/FlightContext.tsx):
    a flight is kept when its origin and its destination both match the
    search text, case-insensitively. */
module Search {
  import opened Types
  import opened Text
  import Seqs

  /** One side of the match: an empty query matches everything; otherwise the
      lower-cased city must contain the lower-cased query, or the lower-cased
      code must equal it. */
  predicate PlaceMatches(query: string, city: string, code: string) {
    query == "" || Contains(Lower(city), Lower(query)) || Lower(code) == Lower(query)
  }

  predicate Matches(params: SearchParams, f: Flight) {
    && PlaceMatches(params.from, f.departureCity, f.departureCode)
    && PlaceMatches(params.to, f.arrivalCity, f.arrivalCode)
  }

  function MatchesCriteria(params: SearchParams): Flight -> bool {
    f => Matches(params, f)
  }

  /** `flights.filter(...)` over the catalog. */
  function SearchFlights(catalog: seq<Flight>, params: SearchParams): (r: seq<Flight>)
    ensures |r| <= |catalog|
    ensures forall i | 0 <= i < |r| :: r[i] in catalog && Matches(params, r[i])
  {
    Seqs.Filter(catalog, MatchesCriteria(params))
  }

  /** The result is exactly the matching flights, as a subsequence of the
      catalog (catalog order) and with each matching flight as often as the
      catalog holds it. */
  lemma SearchIsMatchingSubsequence(catalog: seq<Flight>, params: SearchParams)
    ensures var r := SearchFlights(catalog, params);
      && (forall f :: f in r <==> f in catalog && Matches(params, f))
      && Seqs.IsSubsequence(r, catalog)
      && (forall f :: multiset(r)[f] == if Matches(params, f) then multiset(catalog)[f] else 0)
  {
    var r := SearchFlights(catalog, params);
    Seqs.FilterIsSubsequence(catalog, MatchesCriteria(params));
    forall f ensures multiset(r)[f] == if Matches(params, f) then multiset(catalog)[f] else 0 {
      Seqs.FilterCounts(catalog, MatchesCriteria(params), f);
    }
    forall f | f in catalog && Matches(params, f) ensures f in r {
      var i :| 0 <= i < |catalog| && catalog[i] == f;
    }
  }

  /** Empty origin and destination: the whole catalog, in catalog order. */
  lemma SearchWithoutCriteria(catalog: seq<Flight>, params: SearchParams)
    requires params.from == "" && params.to == ""
    ensures SearchFlights(catalog, params) == catalog
  {
    Seqs.FilterAll(catalog, MatchesCriteria(params));
  }

  /** A non-empty origin that is in no catalog city and equals no catalog
      code gives no results. */
  lemma SearchUnknownOrigin(catalog: seq<Flight>, params: SearchParams)
    requires params.from != ""
    requires forall i | 0 <= i < |catalog| ::
      && !Contains(Lower(catalog[i].departureCity), Lower(params.from))
      && Lower(catalog[i].departureCode) != Lower(params.from)
    ensures SearchFlights(catalog, params) == []
  {
    Seqs.FilterNone(catalog, MatchesCriteria(params));
  }

  /** Searching a catalog in two parts searches each part, results in order. */
  lemma SearchSplitsOverCatalog(a: seq<Flight>, b: seq<Flight>, params: SearchParams)
    ensures SearchFlights(a + b, params) == SearchFlights(a, params) + SearchFlights(b, params)
  {
    Seqs.FilterConcat(a, b, MatchesCriteria(params));
  }

  /** Queries that differ only in ASCII letter case match the same flights. */
  lemma MatchIgnoresCase(q1: string, q2: string, city: string, code: string)
    requires Lower(q1) == Lower(q2)
    ensures PlaceMatches(q1, city, code) == PlaceMatches(q2, city, code)
  {
    assert |q1| == |Lower(q1)| == |Lower(q2)| == |q2|;
  }

  /** The city side is a substring match: a query that is a piece of the city
      name matches whatever the code. */
  lemma {:induction false} CityInfixMatches(query: string, before: string, after: string, code: string)
    ensures PlaceMatches(query, before + query + after, code)
  {
    var lc := Lower(before + query + after);
    assert lc == Lower(before) + Lower(query) + Lower(after);
    InfixContained(Lower(before), Lower(query), Lower(after));
  }

  lemma {:induction false} InfixContained(before: string, sub: string, after: string)
    ensures Contains(before + sub + after, sub)
    decreases |before|
  {
    if before == [] {
      assert before + sub + after == sub + after;
    } else {
      InfixContained(before[1..], sub, after);
      assert (before + sub + after)[1..] == before[1..] + sub + after;
    }
  }

  /** The code side is an exact, case-insensitive match. */
  lemma CodeMatches(query: string, city: string, code: string)
    requires Lower(code) == Lower(query)
    ensures PlaceMatches(query, city, code)
  {
  }
}
