/** The session store of src/context/FlightContext.tsx: the search
    parameters, the last search results, the selected flight, the passenger
    drafts, the last booking and every booking made, keyed by its id. The
    React setters are field assignments; the catalog (src/data/flights) is a
    constant the store is created with. */
module Store {
  import opened Types
  import Search
  import BookingIds
  import Text

  /** The store's initial search parameters for the given day: no origin or
      destination, a return a week later, one passenger, Economy. */
  function DefaultSearchParams(today: Date): (p: SearchParams)
    ensures p.from == "" && p.to == "" && p.passengers == 1 && p.cabinClass == "Economy"
    ensures p.departDate == today && p.returnDate == Some(today + 7)
  {
    SearchParams("", "", today, Some(today + 7), 1, "Economy")
  }

  /** `createBooking` throws when there is no selected flight or no passenger. */
  datatype BookingError = MissingFlightOrPassengers

  /** The booking `createBooking` builds: the flight and drafts as they are
      now, the price times the number of drafts, status Confirmed. */
  function NewBooking(id: string, flight: Flight, passengers: seq<PassengerInfo>, now: Date): (b: Booking)
    ensures b.id == id && b.flight == flight && b.passengers == passengers
    ensures b.totalPrice == flight.price * |passengers| && b.status == Confirmed
  {
    Booking(id, flight, passengers, flight.price * |passengers|, now, Confirmed)
  }

  /** A booking as the create path leaves it: confirmed, with at least one
      passenger and the total of its flight's price per passenger. */
  ghost predicate WellFormed(b: Booking) {
    && b.status == Confirmed
    && |b.passengers| > 0
    && b.totalPrice == b.flight.price * |b.passengers|
  }

  class FlightStore {
    const catalog: seq<Flight>
    var searchParams: SearchParams
    var searchResults: seq<Flight>
    var selectedFlight: Option<Flight>
    var passengerInfo: seq<PassengerInfo>
    var booking: Option<Booking>
    var bookings: map<string, Booking>

    /** Every stored booking is well formed and filed under its own id, and
        the last booking is the one filed under its id. */
    ghost predicate Valid()
      reads this`bookings, this`booking
    {
      && (forall id | id in bookings :: bookings[id].id == id && WellFormed(bookings[id]))
      && (booking.Some? ==> booking.value.id in bookings && bookings[booking.value.id] == booking.value)
    }

    constructor (catalog: seq<Flight>, today: Date)
      ensures Valid()
      ensures this.catalog == catalog
      ensures searchParams == DefaultSearchParams(today)
      ensures searchResults == [] && selectedFlight == None && passengerInfo == []
      ensures booking == None && bookings == map[]
    {
      this.catalog := catalog;
      searchParams := DefaultSearchParams(today);
      searchResults := [];
      selectedFlight := None;
      passengerInfo := [];
      booking := None;
      bookings := map[];
    }

    method SetSearchParams(params: SearchParams)
      modifies this`searchParams
      ensures searchParams == params
    {
      searchParams := params;
    }

    method SetSearchResults(results: seq<Flight>)
      modifies this`searchResults
      ensures searchResults == results
    {
      searchResults := results;
    }

    method SetSelectedFlight(flight: Option<Flight>)
      modifies this`selectedFlight
      ensures selectedFlight == flight
    {
      selectedFlight := flight;
    }

    method SetPassengerInfo(info: seq<PassengerInfo>)
      modifies this`passengerInfo
      ensures passengerInfo == info
    {
      passengerInfo := info;
    }

    /** Replaces the results wholesale by the catalog filtered with the
        current parameters; running it again with the same parameters stores
        the same sequence. */
    method SearchFlights()
      modifies this`searchResults
      ensures searchResults == Search.SearchFlights(catalog, searchParams)
      ensures forall f :: f in searchResults <==> f in catalog && Search.Matches(searchParams, f)
    {
      searchResults := Search.SearchFlights(catalog, searchParams);
      Search.SearchIsMatchingSubsequence(catalog, searchParams);
    }

    /** Fails, changing nothing, without a selected flight or without
        passengers. Otherwise files a confirmed booking under the id formatted
        from `draw`, replacing any booking already filed under that id and no
        other, makes it the last booking, and returns the id. */
    method CreateBooking(draw: nat, now: Date) returns (r: Result<string, BookingError>)
      requires Valid()
      requires draw < BookingIds.KeySpace
      modifies this`booking, this`bookings
      ensures Valid()
      ensures r.Err? <==> selectedFlight.None? || |passengerInfo| == 0
      ensures r.Err? ==> booking == old(booking) && bookings == old(bookings)
      ensures r.Ok? ==>
        && r.value == BookingIds.GenerateBookingId(draw)
        && r.value in bookings
        && bookings[r.value] == NewBooking(r.value, selectedFlight.value, passengerInfo, now)
        && booking == Some(bookings[r.value])
        && bookings.Keys == old(bookings).Keys + {r.value}
        && (forall id | id in old(bookings) && id != r.value :: bookings[id] == old(bookings)[id])
    {
      if selectedFlight.None? || |passengerInfo| == 0 {
        return Err(MissingFlightOrPassengers);
      }
      var id := BookingIds.GenerateBookingId(draw);
      var b := NewBooking(id, selectedFlight.value, passengerInfo, now);
      booking := Some(b);
      bookings := bookings[id := b];
      r := Ok(id);
    }

    /** The booking filed under `id`, or none; nothing changes. */
    method GetBookingById(id: string) returns (r: Option<Booking>)
      requires Valid()
      ensures r.Some? <==> id in bookings
      ensures r.Some? ==> r.value == bookings[id] && r.value.id == id && WellFormed(r.value)
    {
      r := if id in bookings then Some(bookings[id]) else None;
    }
  }

  /** The worked example: a New York (NYC) to Paris (CDG) flight at 449 is
      found by "new york" / "CDG", and booking it for two passengers costs 898
      and can be looked up by the returned id. */
  method NewYorkParisScenario(primary: PassengerInfo, second: PassengerInfo, draw: nat)
    requires draw < BookingIds.KeySpace
  {
    var paris := Flight("1", "SkyVoyage", None, "SV100", "New York", "NYC", 0,
                        "Paris", "CDG", 420, 420, 0, 449, Some("Economy"), None);
    var store := new FlightStore([paris], 0);
    store.SetSearchParams(SearchParams("new york", "CDG", 0, None, 2, "Economy"));
    assert Search.Matches(store.searchParams, paris) by {
      assert Text.Lower("New York") == "new york";
      assert Text.Lower("new york") == "new york";
      Search.CityInfixMatches("new york", "", "", "NYC");
      assert "" + "new york" + "" == "new york";
    }
    store.SearchFlights();
    assert paris in store.searchResults;
    store.SetSelectedFlight(Some(paris));
    store.SetPassengerInfo([primary, second]);
    var r := store.CreateBooking(draw, 1);
    assert r.Ok?;
    var found := store.GetBookingById(r.value);
    assert found.Some? && found.value.totalPrice == 898;
  }
}
