/** The state logic of src/pages/BookingPage.tsx: the effect that picks the
    flight named in the route, the effect that creates the passenger drafts,
    the edit callback, and the two-step Continue/Back machine that validates
    the drafts and then books through the store. Navigation, toasts, scrolling
    and the two-second delay before booking are left out; the booking call is
    made directly. */
module BookingPage {
  import opened Types
  import Validation
  import Store
  import BookingIds
  import Display

  // ------------------------------------------------------------ route lookup

  /** `results.find(f => f.id.toString() === id)`: the first flight with that id. */
  function FindById(results: seq<Flight>, id: string): (r: Option<Flight>)
    ensures r.Some? ==> r.value in results && r.value.id == id
    ensures r.None? <==> forall i | 0 <= i < |results| :: results[i].id != id
  {
    if results == [] then None
    else if results[0].id == id then Some(results[0])
    else FindById(results[1..], id)
  }

  /** The flight found is the first one with that id: none before it has it. */
  lemma {:induction false} FindByIdFirst(results: seq<Flight>, id: string)
    requires FindById(results, id).Some?
    ensures exists k | 0 <= k < |results| ::
      && results[k] == FindById(results, id).value
      && forall i | 0 <= i < k :: results[i].id != id
    decreases |results|
  {
    if results[0].id != id {
      FindByIdFirst(results[1..], id);
      var k :| 0 <= k < |results[1..]|
        && results[1..][k] == FindById(results[1..], id).value
        && forall i | 0 <= i < k :: results[1..][i].id != id;
      assert results[k + 1] == results[1..][k];
      assert forall i | 1 <= i < k + 1 :: results[i] == results[1..][i - 1];
    } else {
      assert results[0] == FindById(results, id).value;
    }
  }

  /** The first effect: with no flight selected and an id in the route, select
      the first result carrying that id. Returns true when there is none (the
      page then sends the user back to the search). */
  method SelectRouteFlight(store: Store.FlightStore, flightId: string) returns (notFound: bool)
    modifies store`selectedFlight
    ensures old(store.selectedFlight).Some? || flightId == "" ==>
      !notFound && store.selectedFlight == old(store.selectedFlight)
    ensures old(store.selectedFlight).None? && flightId != "" ==>
      && store.selectedFlight == FindById(store.searchResults, flightId)
      && (notFound <==> store.selectedFlight.None?)
  {
    notFound := false;
    if store.selectedFlight.None? && flightId != "" {
      var flight := FindById(store.searchResults, flightId);
      if flight.Some? {
        store.SetSelectedFlight(flight);
      } else {
        notFound := true;
      }
    }
  }

  // ------------------------------------------------------------ drafts

  /** The empty draft at 0-based position `index`: numbered index + 1, every
      text field empty, contact fields only on the first draft, no special
      assistance, meal "Regular". */
  function BlankDraft(index: nat): (p: PassengerInfo)
    ensures p.id == index + 1
    ensures p.firstName == "" && p.lastName == "" && p.gender == "" && p.dateOfBirth == "" && p.passportNumber == ""
    ensures p.email.Some? <==> index == 0
    ensures p.phone.Some? <==> index == 0
    ensures !Present(p.email) && !Present(p.phone)
    ensures !p.specialAssistance && p.mealPreference == "Regular"
  {
    PassengerInfo(index + 1, "", "", "", "", "",
      if index == 0 then Some("") else None,
      if index == 0 then Some("") else None,
      false, "Regular")
  }

  /** `Array(n).fill(null).map((_, index) => ...)`. */
  function InitialPassengers(n: nat): (drafts: seq<PassengerInfo>)
    ensures |drafts| == n
    ensures forall i | 0 <= i < n :: drafts[i] == BlankDraft(i)
  {
    seq(n, i requires 0 <= i => BlankDraft(i))
  }

  /** What the initialisation effect leaves: fresh drafts when a passenger
      count is set and there are no drafts yet, the drafts untouched otherwise. */
  function InitializedDrafts(passengers: nat, drafts: seq<PassengerInfo>): (r: seq<PassengerInfo>)
    ensures |drafts| > 0 ==> r == drafts
    ensures |drafts| == 0 ==> r == InitialPassengers(passengers) && |r| == passengers
  {
    if passengers != 0 && |drafts| == 0 then InitialPassengers(passengers) else drafts
  }

  /** Running the effect again changes nothing. */
  lemma InitializationIdempotent(passengers: nat, drafts: seq<PassengerInfo>)
    ensures InitializedDrafts(passengers, InitializedDrafts(passengers, drafts)) == InitializedDrafts(passengers, drafts)
  {
  }

  /** The draft ids are 1..N, distinct. */
  lemma InitialIdsDistinct(n: nat)
    ensures forall i, j | 0 <= i < j < n :: InitialPassengers(n)[i].id != InitialPassengers(n)[j].id
  {
  }

  /** Fresh drafts never validate: each misses its name, gender and date of
      birth, the first also its contact details, and no format error is
      raised because empty contact fields are not checked. */
  lemma InitialDraftsErrors(n: nat, e: Validation.ValidationError)
    requires n > 0
    ensures e in Validation.ValidationErrors(InitialPassengers(n)) <==>
      || ((e.MissingFirstName? || e.MissingLastName? || e.MissingGender? || e.MissingDateOfBirth?)
          && 1 <= e.passenger <= n)
      || e.MissingContactEmail? || e.MissingContactPhone?
  {
    Validation.ErrorsAreExactlyRaised(InitialPassengers(n), e);
  }

  /** The initialisation effect on the store's drafts. */
  method InitializePassengers(store: Store.FlightStore)
    modifies store`passengerInfo
    ensures store.passengerInfo == InitializedDrafts(store.searchParams.passengers, old(store.passengerInfo))
  {
    if store.searchParams.passengers != 0 && |store.passengerInfo| == 0 {
      store.SetPassengerInfo(InitialPassengers(store.searchParams.passengers));
    }
  }

  /** The `onChange` callback of the draft at `index`: replace that draft only. */
  method ChangePassenger(store: Store.FlightStore, index: nat, updated: PassengerInfo)
    requires index < |store.passengerInfo|
    modifies store`passengerInfo
    ensures |store.passengerInfo| == |old(store.passengerInfo)|
    ensures store.passengerInfo[index] == updated
    ensures forall i | 0 <= i < |store.passengerInfo| && i != index :: store.passengerInfo[i] == old(store.passengerInfo)[i]
  {
    store.SetPassengerInfo(store.passengerInfo[index := updated]);
  }

  // ------------------------------------------------------------ steps

  /** The page's local state: the step (1 passenger details, 2 payment), the
      errors shown, and whether a booking is under way. */
  class Stepper {
    var currentStep: int
    var validationErrors: seq<Validation.ValidationError>
    var isLoading: bool

    /** Only steps 1 and 2 are reachable. (Loading may outlast step 2: Back
        stays enabled while a booking is under way.) */
    ghost predicate Valid()
      reads this
    {
      currentStep == 1 || currentStep == 2
    }

    constructor ()
      ensures Valid()
      ensures currentStep == 1 && validationErrors == [] && !isLoading
    {
      currentStep := 1;
      validationErrors := [];
      isLoading := false;
    }

    /** Shows the errors of the current drafts; true when there are none. */
    method ValidatePassengerInfo(drafts: seq<PassengerInfo>) returns (ok: bool)
      modifies this`validationErrors
      ensures validationErrors == Validation.ValidationErrors(drafts)
      ensures ok <==> validationErrors == []
      ensures ok <==> forall i | 0 <= i < |drafts| :: Validation.DraftValid(drafts[i], i)
    {
      var errors;
      errors, ok := Validation.CollectErrors(drafts);
      validationErrors := errors;
      Validation.ValidIffNoErrors(drafts);
    }

    /** Continue. On step 1 the drafts are validated and the page moves on to
        step 2 exactly when they pass. On step 2 a booking is made from the
        store; on success its id is returned and the page stays loading until
        it navigates away, on failure loading is switched off again. The
        button is disabled while loading. */
    method HandleContinue(store: Store.FlightStore, draw: nat, now: Date) returns (bookingId: Option<string>)
      requires Valid() && store.Valid()
      requires !isLoading
      requires draw < BookingIds.KeySpace
      modifies this, store`booking, store`bookings
      ensures Valid() && store.Valid()
      ensures old(currentStep) == 1 ==>
        && bookingId.None? && !isLoading
        && validationErrors == Validation.ValidationErrors(store.passengerInfo)
        && (currentStep == 2 <==> validationErrors == [])
        && store.booking == old(store.booking) && store.bookings == old(store.bookings)
      ensures old(currentStep) == 2 ==>
        && currentStep == 2 && validationErrors == old(validationErrors)
        && (bookingId.Some? <==> store.selectedFlight.Some? && |store.passengerInfo| > 0)
        && (bookingId.Some? ==>
              && bookingId.value == BookingIds.GenerateBookingId(draw)
              && store.booking.Some? && store.booking.value.id == bookingId.value
              && store.booking.value
                   == Store.NewBooking(bookingId.value, store.selectedFlight.value, store.passengerInfo, now)
              && store.bookings == old(store.bookings)[bookingId.value := store.booking.value])
        && (bookingId.None? ==> store.booking == old(store.booking) && store.bookings == old(store.bookings))
        && isLoading == bookingId.Some?
    {
      bookingId := None;
      if currentStep == 1 {
        var ok := ValidatePassengerInfo(store.passengerInfo);
        if ok {
          currentStep := 2;
        }
      } else if currentStep == 2 {
        isLoading := true;
        var r := store.CreateBooking(draw, now);
        if r.Ok? {
          bookingId := Some(r.value);
        } else {
          isLoading := false;
        }
      }
    }

    /** Back: one step back from step 2; on step 1 the step stays and the
        page navigates back instead (returns true). */
    method HandleBack() returns (navigateBack: bool)
      requires Valid()
      modifies this`currentStep
      ensures Valid()
      ensures old(currentStep) > 1 ==> currentStep == old(currentStep) - 1 && !navigateBack
      ensures old(currentStep) <= 1 ==> currentStep == old(currentStep) && navigateBack
    {
      if currentStep > 1 {
        currentStep := currentStep - 1;
        navigateBack := false;
      } else {
        navigateBack := true;
      }
    }
  }

  /** The summary on the booking page is shown for the selected flight and
      the number of drafts; the booking made from that state costs exactly
      the base fare it shows. */
  lemma SummaryMatchesBooking(flight: Flight, drafts: seq<PassengerInfo>, id: string, now: Date)
    ensures Store.NewBooking(id, flight, drafts, now).totalPrice == Display.BaseFare(flight.price, |drafts|)
  {
  }

  /** A client of the page: Back on step 1 leaves the page, Continue with
      invalid drafts stays on step 1 and shows the errors, Back from step 2
      returns to step 1. */
  method StepScenario(store: Store.FlightStore)
    requires store.Valid()
    modifies store`booking, store`bookings, store`passengerInfo
  {
    var page := new Stepper();
    var back := page.HandleBack();
    assert back && page.currentStep == 1;
    store.SetPassengerInfo([BlankDraft(0)]);
    var id := page.HandleContinue(store, 0, 0);
    assert Validation.MissingFirstName(1) in page.validationErrors by {
      Validation.ErrorsAreExactlyRaised(store.passengerInfo, Validation.MissingFirstName(1));
    }
    assert page.currentStep == 1;
  }
}
