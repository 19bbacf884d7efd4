/** The results list of src/pages/ResultsPage.tsx: the airlines offered as
    filters, the airline and price filter, the stable sort by price, duration
    or departure, and the page's filter state with its airline toggle. */
module Results {
  import opened Types
  import Seqs
  import Store

  // ------------------------------------------------------------ airlines

  function Airlines(results: seq<Flight>): (names: seq<string>)
    ensures |names| == |results|
    ensures forall i | 0 <= i < |results| :: names[i] == results[i].airline
  {
    seq(|results|, i requires 0 <= i < |results| => results[i].airline)
  }

  /** `[...new Set(names)]`: each name once, where it first occurs. */
  function Unique(names: seq<string>): (u: seq<string>)
    ensures |u| <= |names|
    ensures forall i | 0 <= i < |u| :: u[i] in names
  {
    if names == [] then []
    else
      var seen := Unique(names[..|names| - 1]);
      var last := names[|names| - 1];
      if last in seen then seen else seen + [last]
  }

  /** The names offered are exactly the names present, each once. */
  lemma {:induction false} UniqueSpec(names: seq<string>)
    ensures forall x :: x in Unique(names) <==> x in names
    ensures Seqs.NoDup(Unique(names))
    decreases |names|
  {
    if names != [] {
      var init := names[..|names| - 1];
      UniqueSpec(init);
      assert names == init + [names[|names| - 1]];
    }
  }

  /** Names seen later never reorder those already listed: the list for a
      prefix of the results is a prefix of the list for all of them. */
  lemma {:induction false} UniquePrefix(names: seq<string>, more: seq<string>)
    ensures Unique(names) <= Unique(names + more)
    decreases |more|
  {
    if more == [] {
      assert names + more == names;
    } else {
      var init := more[..|more| - 1];
      UniquePrefix(names, init);
      assert names + more == (names + init) + [more[|more| - 1]];
      assert (names + more)[..|names + more| - 1] == names + init;
    }
  }

  /** The first-occurrence order: a name listed before another first
      appears in the results before the other does. */
  lemma {:induction false} UniqueFirstOccurrence(names: seq<string>, i: nat, j: nat)
    requires i < j < |Unique(names)|
    ensures exists p | 0 <= p < |names| ::
      && names[p] == Unique(names)[i]
      && forall q | 0 <= q <= p :: names[q] != Unique(names)[j]
    decreases |names|
  {
    var init := names[..|names| - 1];
    var seen := Unique(init);
    UniqueSpec(init);
    if j < |seen| {
      UniqueFirstOccurrence(init, i, j);
      var p :| 0 <= p < |init| && init[p] == seen[i] && forall q | 0 <= q <= p :: init[q] != seen[j];
      assert names[p] == init[p];
    } else {
      assert Unique(names)[j] == names[|names| - 1] && Unique(names)[j] !in init;
      assert seen[i] in init;
      var p :| 0 <= p < |init| && init[p] == seen[i];
      assert forall q | 0 <= q <= p :: names[q] == init[q];
    }
  }

  /** The airline filters offered for the results. */
  function AirlineOptions(results: seq<Flight>): (names: seq<string>)
    ensures Seqs.NoDup(names)
    ensures forall i | 0 <= i < |results| :: results[i].airline in names
    ensures forall x | x in names :: exists i | 0 <= i < |results| :: results[i].airline == x
  {
    UniqueSpec(Airlines(results));
    Unique(Airlines(results))
  }

  // ------------------------------------------------------------ filter

  /** A flight is shown when no airline is selected or its airline is, and
      its price is within the range, both ends included. */
  predicate PassesFilters(selected: seq<string>, lo: int, hi: int, f: Flight) {
    (|selected| == 0 || f.airline in selected) && lo <= f.price <= hi
  }

  function FilterCriteria(selected: seq<string>, lo: int, hi: int): Flight -> bool {
    f => PassesFilters(selected, lo, hi, f)
  }

  function FilterResults(results: seq<Flight>, selected: seq<string>, lo: int, hi: int): (r: seq<Flight>)
    ensures |r| <= |results|
    ensures forall i | 0 <= i < |r| :: r[i] in results && PassesFilters(selected, lo, hi, r[i])
  {
    Seqs.Filter(results, FilterCriteria(selected, lo, hi))
  }

  /** A checkbox is ticked when no airline is selected or its airline is. */
  predicate IsChecked(selected: seq<string>, airline: string) {
    |selected| == 0 || airline in selected
  }

  /** The ticked boxes are exactly the airlines the filter lets through. */
  lemma CheckedMeansShown(selected: seq<string>, lo: int, hi: int, f: Flight)
    requires lo <= f.price <= hi
    ensures IsChecked(selected, f.airline) <==> PassesFilters(selected, lo, hi, f)
  {
  }

  /** The filtered results are exactly the passing flights, each as often as
      in the results, in result order. */
  lemma FilterResultsSpec(results: seq<Flight>, selected: seq<string>, lo: int, hi: int)
    ensures var r := FilterResults(results, selected, lo, hi);
      && (forall f :: f in r <==> f in results && PassesFilters(selected, lo, hi, f))
      && Seqs.IsSubsequence(r, results)
      && (forall f :: multiset(r)[f] == if PassesFilters(selected, lo, hi, f) then multiset(results)[f] else 0)
  {
    var p := FilterCriteria(selected, lo, hi);
    Seqs.FilterIsSubsequence(results, p);
    forall f
      ensures multiset(FilterResults(results, selected, lo, hi))[f]
              == if PassesFilters(selected, lo, hi, f) then multiset(results)[f] else 0
    {
      Seqs.FilterCounts(results, p, f);
    }
    forall f | f in results && PassesFilters(selected, lo, hi, f)
      ensures f in FilterResults(results, selected, lo, hi)
    {
      var i :| 0 <= i < |results| && results[i] == f;
    }
  }

  // ------------------------------------------------------------ sort

  datatype SortKey = ByPrice | ByDuration | ByDeparture

  /** The number the comparator subtracts: price, duration in minutes, or
      the departure instant. */
  function Key(order: SortKey, f: Flight): int {
    match order
    case ByPrice => f.price
    case ByDuration => f.durationMinutes
    case ByDeparture => f.departureTime
  }

  function KeyIs(order: SortKey, k: int): Flight -> bool {
    f => Key(order, f) == k
  }

  /** Nondecreasing in the key, neighbour by neighbour. */
  ghost predicate SortedBy(order: SortKey, s: seq<Flight>) {
    forall i | 0 <= i < |s| - 1 :: Key(order, s[i]) <= Key(order, s[i + 1])
  }

  /** Sorted neighbour by neighbour is sorted pair by pair. */
  lemma {:induction false} SortedPairwise(order: SortKey, s: seq<Flight>, i: nat, j: nat)
    requires SortedBy(order, s) && i <= j < |s|
    ensures Key(order, s[i]) <= Key(order, s[j])
    decreases j - i
  {
    if i < j {
      SortedPairwise(order, s, i + 1, j);
    }
  }

  /** Puts `f` before the first flight whose key is not smaller. */
  function Insert(order: SortKey, f: Flight, sorted: seq<Flight>): (r: seq<Flight>)
    ensures multiset(r) == multiset(sorted) + multiset{f}
    ensures |r| == |sorted| + 1
    ensures r[0] == f || (sorted != [] && r[0] == sorted[0])
  {
    if sorted == [] || Key(order, f) <= Key(order, sorted[0]) then [f] + sorted
    else
      assert sorted == [sorted[0]] + sorted[1..];
      [sorted[0]] + Insert(order, f, sorted[1..])
  }

  /** `sort((a, b) => key(a) - key(b))`. The sort of the language is stable,
      which insertion from the back reproduces: a flight goes in front of
      the equal keys of the flights that followed it. */
  function SortBy(order: SortKey, s: seq<Flight>): (r: seq<Flight>)
    ensures multiset(r) == multiset(s)
  {
    if s == [] then []
    else
      assert s == [s[0]] + s[1..];
      Insert(order, s[0], SortBy(order, s[1..]))
  }

  lemma {:induction false} InsertSorted(order: SortKey, f: Flight, sorted: seq<Flight>)
    requires SortedBy(order, sorted)
    ensures SortedBy(order, Insert(order, f, sorted))
    decreases |sorted|
  {
    if sorted != [] && Key(order, f) > Key(order, sorted[0]) {
      var rest := Insert(order, f, sorted[1..]);
      InsertSorted(order, f, sorted[1..]);
      var r := [sorted[0]] + rest;
      assert Key(order, sorted[0]) <= Key(order, rest[0]);
      forall i | 0 <= i < |r| - 1 ensures Key(order, r[i]) <= Key(order, r[i + 1]) {
        if i > 0 {
          assert r[i] == rest[i - 1] && r[i + 1] == rest[i];
        }
      }
    }
  }

  /** The sorted list is nondecreasing in the key. */
  lemma {:induction false} SortSorted(order: SortKey, s: seq<Flight>)
    ensures SortedBy(order, SortBy(order, s))
    decreases |s|
  {
    if s != [] {
      SortSorted(order, s[1..]);
      InsertSorted(order, s[0], SortBy(order, s[1..]));
    }
  }

  lemma {:induction false} InsertStable(order: SortKey, f: Flight, sorted: seq<Flight>, k: int)
    ensures Seqs.Filter(Insert(order, f, sorted), KeyIs(order, k))
      == Seqs.Filter([f], KeyIs(order, k)) + Seqs.Filter(sorted, KeyIs(order, k))
    decreases |sorted|
  {
    var p := KeyIs(order, k);
    if sorted == [] || Key(order, f) <= Key(order, sorted[0]) {
      Seqs.FilterConcat([f], sorted, p);
    } else {
      var first, rest := sorted[0], sorted[1..];
      InsertStable(order, f, rest, k);
      Seqs.FilterConcat([first], Insert(order, f, rest), p);
      Seqs.FilterConcat([first], rest, p);
      assert [first] + rest == sorted;
      // f and first have different keys, so at most one of them is kept.
      Seqs.FilterSingleton(first, p);
      Seqs.FilterSingleton(f, p);
      var a, b, c := Seqs.Filter([first], p), Seqs.Filter([f], p), Seqs.Filter(rest, p);
      assert a + (b + c) == b + (a + c) by {
        if a == [] {
          assert a + (b + c) == b + c && a + c == c;
        } else {
          assert b == [];
          assert b + (a + c) == a + c && b + c == c;
        }
      }
      calc {
        Seqs.Filter(Insert(order, f, sorted), p);
        a + Seqs.Filter(Insert(order, f, rest), p);
        a + (b + c);
        b + (a + c);
        b + Seqs.Filter(sorted, p);
      }
    }
  }

  /** Stability: the flights with any one key keep their relative order. */
  lemma {:induction false} SortStable(order: SortKey, s: seq<Flight>, k: int)
    ensures Seqs.Filter(SortBy(order, s), KeyIs(order, k)) == Seqs.Filter(s, KeyIs(order, k))
    decreases |s|
  {
    if s != [] {
      SortStable(order, s[1..], k);
      InsertStable(order, s[0], SortBy(order, s[1..]), k);
      Seqs.FilterConcat([s[0]], s[1..], KeyIs(order, k));
      assert [s[0]] + s[1..] == s;
    }
  }

  /** What the page lists: the passing results, sorted stably by the key. */
  function Displayed(results: seq<Flight>, order: SortKey, selected: seq<string>, lo: int, hi: int): (shown: seq<Flight>)
    ensures multiset(shown) == multiset(FilterResults(results, selected, lo, hi))
  {
    SortBy(order, FilterResults(results, selected, lo, hi))
  }

  /** The list shown is a stable sort of exactly the passing results, each
      as often as it occurs among the results. */
  lemma DisplayedSpec(results: seq<Flight>, order: SortKey, selected: seq<string>, lo: int, hi: int, k: int)
    ensures var shown := Displayed(results, order, selected, lo, hi);
      && multiset(shown) == multiset(FilterResults(results, selected, lo, hi))
      && (forall f :: f in shown <==> f in results && PassesFilters(selected, lo, hi, f))
      && SortedBy(order, shown)
      && Seqs.Filter(shown, KeyIs(order, k)) == Seqs.Filter(FilterResults(results, selected, lo, hi), KeyIs(order, k))
  {
    var filtered := FilterResults(results, selected, lo, hi);
    FilterResultsSpec(results, selected, lo, hi);
    SortSorted(order, filtered);
    SortStable(order, filtered, k);
    forall f ensures f in Displayed(results, order, selected, lo, hi) <==> f in filtered {
      assert f in multiset(Displayed(results, order, selected, lo, hi)) <==> f in multiset(filtered);
    }
  }

  // ------------------------------------------------------------ toggle

  /** `prev.includes(a) ? prev.filter(x => x !== a) : [...prev, a]`. */
  function Toggled(selected: seq<string>, airline: string): (r: seq<string>)
    ensures airline in r <==> airline !in selected
    ensures forall x | x != airline :: x in r <==> x in selected
  {
    if airline in selected then Seqs.Filter(selected, x => x != airline) else selected + [airline]
  }

  /** Toggling keeps the selection free of duplicates. */
  lemma ToggledNoDup(selected: seq<string>, airline: string)
    requires Seqs.NoDup(selected)
    ensures Seqs.NoDup(Toggled(selected, airline))
  {
    if airline in selected {
      Seqs.FilterNoDup(selected, x => x != airline);
    }
  }

  /** Toggling an unselected airline twice gives the selection back. */
  lemma ToggleTwiceUnselected(selected: seq<string>, airline: string)
    requires airline !in selected
    ensures Toggled(Toggled(selected, airline), airline) == selected
  {
    var p := (x: string) => x != airline;
    Seqs.FilterConcat(selected, [airline], p);
    Seqs.FilterAll(selected, p);
  }

  /** Toggling a selected airline twice selects the same airlines, without
      duplicates, with that airline moved to the end. */
  lemma ToggleTwiceSelected(selected: seq<string>, airline: string)
    requires Seqs.NoDup(selected) && airline in selected
    ensures var back := Toggled(Toggled(selected, airline), airline);
      && (forall x :: x in back <==> x in selected)
      && Seqs.NoDup(back)
      && back[|back| - 1] == airline
  {
    ToggledNoDup(selected, airline);
    ToggledNoDup(Toggled(selected, airline), airline);
  }

  /** With nothing selected every box is ticked; clicking one selects that
      airline alone, so it stays ticked and every other box clears. */
  lemma ToggleFromEmptySelection(airline: string, other: string)
    requires other != airline
    ensures IsChecked([], airline) && IsChecked([], other)
    ensures IsChecked(Toggled([], airline), airline) && !IsChecked(Toggled([], airline), other)
  {
  }

  // ------------------------------------------------------------ view state

  /** The page's filter state: the sort key, the selected airlines, and the
      price range. */
  class ResultsView {
    var sortBy: SortKey
    var selectedAirlines: seq<string>
    var priceLow: int
    var priceHigh: int

    ghost predicate Valid()
      reads this`selectedAirlines
    {
      Seqs.NoDup(selectedAirlines)
    }

    /** Sorted by price, no airline selected, prices 0 to 2000. */
    constructor ()
      ensures Valid()
      ensures sortBy == ByPrice && selectedAirlines == [] && priceLow == 0 && priceHigh == 2000
    {
      sortBy := ByPrice;
      selectedAirlines := [];
      priceLow := 0;
      priceHigh := 2000;
    }

    method ToggleAirline(airline: string)
      requires Valid()
      modifies this`selectedAirlines
      ensures Valid()
      ensures selectedAirlines == Toggled(old(selectedAirlines), airline)
    {
      ToggledNoDup(selectedAirlines, airline);
      selectedAirlines := Toggled(selectedAirlines, airline);
    }

    method SetSortBy(order: SortKey)
      modifies this`sortBy
      ensures sortBy == order
    {
      sortBy := order;
    }

    /** The slider moves the upper end only. */
    method SetPriceHigh(hi: int)
      modifies this`priceHigh
      ensures priceHigh == hi
    {
      priceHigh := hi;
    }

    /** The list shown for the store's current results. */
    function Shown(results: seq<Flight>): seq<Flight>
      reads this
    {
      Displayed(results, sortBy, selectedAirlines, priceLow, priceHigh)
    }
  }

  /** Selecting a flight stores it as the selected flight and names the
      booking route for its id. */
  method SelectFlight(store: Store.FlightStore, f: Flight) returns (route: string)
    modifies store`selectedFlight
    ensures store.selectedFlight == Some(f)
    ensures route == "/booking/" + f.id
  {
    store.SetSelectedFlight(Some(f));
    route := "/booking/" + f.id;
  }
}
