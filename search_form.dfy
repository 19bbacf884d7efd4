/** The search form of src/pages/SearchPage.tsx: six local fields copied
    from the store's search parameters, edited by the inputs, swapped by the
    swap button, and written back to the store on submit unless origin and
    destination are the same text. The delayed search and navigation after a
    submit are left out. */
module SearchForm {
  import opened Types
  import Text
  import Store

  /** The passenger counts the select offers: 1 to 9. */
  const PassengerOptions: seq<nat> := [1, 2, 3, 4, 5, 6, 7, 8, 9]

  /** The cabin classes the select offers. */
  const CabinClasses: seq<string> := ["Economy", "Premium Economy", "Business", "First"]

  lemma PassengerOptionsRange(n: nat)
    ensures n in PassengerOptions <==> 1 <= n <= 9
  {
    if 1 <= n <= 9 {
      assert PassengerOptions[n - 1] == n;
    }
  }

  /** The text of a passenger option: "1 Passenger", "2 Passengers", ... */
  function PassengerOptionLabel(n: nat): string {
    Text.Decimal(n) + " " + PassengerOptionWord(n)
  }

  function PassengerOptionWord(n: nat): string {
    if n == 1 then "Passenger" else "Passengers"
  }

  /** The nine options read differently: the label names its count, in the
      singular only for one. */
  lemma PassengerOptionLabelInjective(a: nat, b: nat)
    requires PassengerOptionLabel(a) == PassengerOptionLabel(b)
    ensures a == b
    ensures PassengerOptionLabel(1) == "1 Passenger"
  {
    var wa, wb := PassengerOptionWord(a), PassengerOptionWord(b);
    assert Text.Decimal(a) + [' '] + wa == PassengerOptionLabel(a);
    assert Text.Decimal(b) + [' '] + wb == PassengerOptionLabel(b);
    Text.SplitAtMarker(Text.Decimal(a), wa, Text.Decimal(b), wb, ' ');
    Text.DecimalInjective(a, b);
    assert Text.Decimal(1) == "1";
  }

  /** What a submit of the given field values does to the store's
      parameters: nothing when origin equals destination (compared exactly,
      case and all), otherwise the values replace the parameters whole. */
  function SubmitOutcome(fields: SearchParams): (r: Option<SearchParams>)
    ensures r.None? <==> fields.from == fields.to
    ensures r.Some? ==> r.value == fields
  {
    if fields.from == fields.to then None else Some(fields)
  }

  /** The form as first shown for the store's defaults, with origin and
      destination both empty, cannot be submitted. */
  lemma DefaultFormRejected(today: Date)
    ensures SubmitOutcome(Store.DefaultSearchParams(today)) == None
    ensures Store.DefaultSearchParams(today).passengers in PassengerOptions
    ensures Store.DefaultSearchParams(today).cabinClass in CabinClasses
  {
    PassengerOptionsRange(1);
  }

  /** Origins that differ only in letter case are different texts, so the
      guard lets them through although the search treats them alike. */
  lemma GuardIsCaseSensitive()
    ensures SubmitOutcome(SearchParams("Paris", "paris", 0, None, 1, "Economy")).Some?
    ensures Text.Lower("Paris") == Text.Lower("paris")
  {
    assert "Paris" != "paris" by { assert "Paris"[0] != "paris"[0]; }
  }

  class SearchFormState {
    var from: string
    var to: string
    var departDate: Date
    var returnDate: Option<Date>
    var passengers: nat
    var cabinClass: string
    var isLoading: bool

    /** The six field values as search parameters. */
    function Fields(): (p: SearchParams)
      reads this
      ensures p.from == from && p.to == to
    {
      SearchParams(from, to, departDate, returnDate, passengers, cabinClass)
    }

    /** The fields start as the store's current parameters. */
    constructor (store: Store.FlightStore)
      ensures Fields() == store.searchParams
      ensures !isLoading
    {
      from := store.searchParams.from;
      to := store.searchParams.to;
      departDate := store.searchParams.departDate;
      returnDate := store.searchParams.returnDate;
      passengers := store.searchParams.passengers;
      cabinClass := store.searchParams.cabinClass;
      isLoading := false;
    }

    method SetFrom(value: string)
      modifies this`from
      ensures from == value
    {
      from := value;
    }

    method SetTo(value: string)
      modifies this`to
      ensures to == value
    {
      to := value;
    }

    /** A cleared picker falls back to today. */
    method SetDepartDate(date: Option<Date>, today: Date)
      modifies this`departDate
      ensures departDate == if date.Some? then date.value else today
    {
      departDate := if date.Some? then date.value else today;
    }

    /** A cleared picker falls back to today, so a return date is then always set. */
    method SetReturnDate(date: Option<Date>, today: Date)
      modifies this`returnDate
      ensures returnDate == Some(if date.Some? then date.value else today)
    {
      returnDate := Some(if date.Some? then date.value else today);
    }

    method SetPassengers(n: nat)
      requires n in PassengerOptions
      modifies this`passengers
      ensures passengers == n
    {
      passengers := n;
    }

    method SetCabinClass(c: string)
      requires c in CabinClasses
      modifies this`cabinClass
      ensures cabinClass == c
    {
      cabinClass := c;
    }

    /** A popular route fills in both ends. */
    method PickRoute(routeFrom: string, routeTo: string)
      modifies this`from, this`to
      ensures from == routeFrom && to == routeTo
    {
      from := routeFrom;
      to := routeTo;
    }

    /** Exchanges origin and destination; nothing else changes. */
    method HandleSwapLocations()
      modifies this`from, this`to
      ensures from == old(to) && to == old(from)
    {
      var tempFrom := from;
      from := to;
      to := tempFrom;
    }

    /** Submit: rejected, changing nothing, when origin equals destination;
        otherwise the store's parameters become the field values and the
        form starts loading. */
    method HandleSubmit(store: Store.FlightStore) returns (submitted: bool)
      modifies store`searchParams, this`isLoading
      ensures submitted <==> SubmitOutcome(Fields()).Some?
      ensures !submitted ==> store.searchParams == old(store.searchParams) && isLoading == old(isLoading)
      ensures submitted ==> store.searchParams == SubmitOutcome(Fields()).value && isLoading
    {
      if from == to {
        return false;
      }
      store.SetSearchParams(Fields());
      isLoading := true;
      submitted := true;
    }
  }

  /** Swapping twice gives back the original origin and destination. */
  method SwapTwice(form: SearchFormState)
    modifies form`from, form`to
    ensures form.from == old(form.from) && form.to == old(form.to)
  {
    form.HandleSwapLocations();
    form.HandleSwapLocations();
  }

  /** A client: a swapped route is submitted as the swapped pair. */
  method SwapThenSubmit(store: Store.FlightStore)
    modifies store`searchParams
  {
    var form := new SearchFormState(store);
    form.PickRoute("New York", "London");
    form.HandleSwapLocations();
    var ok := form.HandleSubmit(store);
    assert ok && store.searchParams.from == "London" && store.searchParams.to == "New York";
  }
}
