# SkyVoyage booking core in Dafny

SkyVoyage is a client-side flight search and booking demo written in React.
This project models the logic that sits beneath its pages and proves what
that logic guarantees:

- the session store (`FlightContext`) as a class: search parameters, search
  results, selected flight, passenger drafts, last booking, and the map of
  bookings by id;
- the case-insensitive catalog search;
- the booking-id formatter `SV-XXXXXX`;
- on the booking page: the passenger-draft initialisation, the ordered
  validation error list with its two patterns (email and phone), and the
  two-step Continue/Back machine;
- on the results page: the airline list, the airline and price filter, the
  stable sort by price, duration or departure, and the airline toggle;
- on the flight card and the booking summary: the duration text, the stop,
  passenger, baggage, aircraft and logo labels, the base fare and the grand
  total;
- the passenger form's single-field update, and the search form's local
  fields, swap and same-city guard.

Modules, one per file:

- `Types`: the records.
- `Text`: ASCII case folding, substrings, decimal text.
- `Seqs`: `filter`, subsequences, duplicate-freedom, and a `forEach` that
  pushes one part per element.
- `Search`, `Store`, `BookingIds`, `Validation`, `BookingPage`, `Results`,
  `Display`, `PassengerForm`, `SearchForm`.

React state setters are field assignments on a class. Randomness (the id
draw), the clock (`new Date()`) and the catalog are parameters.

## Model

| member | source | states |
|---|---|---|
| `Text.Lower` | src/context/FlightContext.tsx:45-48 | `toLowerCase` keeps the length, maps each letter A-Z to the letter 32 code points above it (a-z), and leaves every other character as it is |
| `Text.Decimal` | src/utils/helpers.ts:7 | the decimal text of a number is non-empty, all digits, and has no leading zero |
| `Text.DecimalRoundTrip` | src/utils/helpers.ts:6-7 | reading the decimal text back gives the number |
| `Text.IntString` | src/components/flights/FlightCard.tsx:21 | a template number is its digits, with a '-' in front when it is negative |
| `Search.PlaceMatches` | src/context/FlightContext.tsx:45-48 | one side of the filter: an empty query, a city containing the query, or a code equal to it, all up to letter case; its meaning is stated by `Search.MatchIgnoresCase`, `Search.CityInfixMatches` and `Search.CodeMatches` |
| `Search.Matches` | src/context/FlightContext.tsx:44-48 | a flight matches when both its origin side and its destination side match; `Search.SearchIsMatchingSubsequence` states the search in its terms |
| `Search.SearchFlights` | src/context/FlightContext.tsx:42-48 | the result is no longer than the catalog and every flight in it comes from the catalog and matches both places |
| `Search.SearchIsMatchingSubsequence` | src/context/FlightContext.tsx:43-49 | the search result holds exactly the catalog flights whose origin and destination both match, in catalog order, each as often as in the catalog |
| `Search.SearchWithoutCriteria` | src/context/FlightContext.tsx:43-49 | with empty origin and destination the result is the whole catalog, unchanged and in order |
| `Search.SearchUnknownOrigin` | src/context/FlightContext.tsx:45-46 | a non-empty origin found in no departure city and equal to no departure code gives no results |
| `Search.SearchSplitsOverCatalog` | src/context/FlightContext.tsx:43-49 | searching two parts of a catalog concatenates their results: the filter looks at each flight alone |
| `Search.MatchIgnoresCase` | src/context/FlightContext.tsx:45-48 | two queries that differ only in letter case match the same flights |
| `Search.CityInfixMatches` | src/context/FlightContext.tsx:45-48 | any piece of the city name matches, whatever its letter case |
| `Search.CodeMatches` | src/context/FlightContext.tsx:46-48 | a query equal to the airport code up to letter case matches |
| `Store.DefaultSearchParams` | src/context/FlightContext.tsx:22-29 | the initial parameters: empty origin and destination, departure today, return seven days later, 1 passenger, Economy |
| `Store.NewBooking` | src/context/FlightContext.tsx:60-67 | the booking keeps the id, the selected flight and the drafts, costs price times the number of drafts, and is Confirmed |
| `Store.FlightStore.constructor` | src/context/FlightContext.tsx:34-39 | the initial store: default parameters, no results, no selected flight, no drafts, no last booking, an empty bookings map |
| `Store.FlightStore.SetSearchParams` | src/context/FlightContext.tsx:34 | the parameters are replaced whole |
| `Store.FlightStore.SetSearchResults` | src/context/FlightContext.tsx:35 | the results are replaced whole |
| `Store.FlightStore.SetSelectedFlight` | src/context/FlightContext.tsx:36 | the selected flight is replaced, or cleared |
| `Store.FlightStore.SetPassengerInfo` | src/context/FlightContext.tsx:37 | the drafts are replaced whole |
| `Store.FlightStore.SearchFlights` | src/context/FlightContext.tsx:41-52 | the results become the catalog filtered by the current parameters, so a second run stores the same sequence; a flight is in them iff it is in the catalog and matches |
| `Store.FlightStore.CreateBooking` | src/context/FlightContext.tsx:54-73 | fails, changing nothing, iff no flight is selected or there are no drafts. Otherwise it files the new booking under the id formatted from the draw, overwriting a booking already under that id, keeps every other entry, makes it the last booking, and keeps every stored booking confirmed and filed under its own id |
| `Store.FlightStore.GetBookingById` | src/context/FlightContext.tsx:75-77 | returns the booking filed under the id, or none when the id is absent; it changes nothing |
| `BookingIds.GenerateBookingId` | src/utils/helpers.ts:6-9 | every id starts with "SV-" and is followed by at least six characters, all digits |
| `BookingIds.PadStart` | src/utils/helpers.ts:8 | `padStart` puts fill characters in front up to the width and never shortens |
| `BookingIds.ParseBookingId` | src/utils/helpers.ts:6-9 | an id of the generated shape reads back to a number below 10^6 |
| `BookingIds.BookingIdShape` | src/utils/helpers.ts:6-9 | for a draw in [0, 10^6) the id has 9 characters: "SV-" then six digits |
| `BookingIds.BookingIdRoundTrip` | src/utils/helpers.ts:6-8 | reading the six digits back gives the draw |
| `BookingIds.BookingIdInjective` | src/utils/helpers.ts:6-9 | different draws give different ids |
| `BookingIds.BookingIdPadded` | src/utils/helpers.ts:7-8 | draws below 100000 are padded with a leading '0' |
| `BookingIds.BookingIdUnpadded` | src/utils/helpers.ts:6-9 | draws of 100000 or more get no padding |
| `BookingIds.BookingIdExample` | src/utils/helpers.ts:6-9 | draw 42 gives "SV-000042" |
| `Validation.IsEmail` | src/pages/BookingPage.tsx:92 | the email pattern as a scan; `Validation.EmailMatcherCorrect` states the strings it accepts |
| `Validation.EmailMatcherCorrect` | src/pages/BookingPage.tsx:92 | the two-scan matcher accepts exactly the strings with no whitespace, an '@' past the first character, and a '.' at least two characters after the '@' with a character after the '.' |
| `Validation.IsPhone` | src/pages/BookingPage.tsx:96 | the phone pattern; `Validation.PhoneMatcherCorrect` states the strings it accepts |
| `Validation.PhoneMatcherCorrect` | src/pages/BookingPage.tsx:96 | the matcher accepts exactly an optional '+' followed by at least seven characters, each a digit, whitespace, '-', '(' or ')' |
| `Validation.Message` | src/pages/BookingPage.tsx:68-98 | each error has its message text; only the two contact messages do not start with "Passenger " |
| `Validation.RuleText` | src/pages/BookingPage.tsx:70-98 | the part of a passenger message after the number and colon; `Validation.RuleTextInjective` states that it names the rule |
| `Validation.PassengerMessage` | src/pages/BookingPage.tsx:70-98 | a passenger message is "Passenger ", the passenger number, ':' and the rule's text |
| `Validation.RuleTextInjective` | src/pages/BookingPage.tsx:70-98 | two errors of the same passenger with the same rule text are the same error |
| `Validation.MessageInjective` | src/pages/BookingPage.tsx:68-98 | different errors have different messages, so the list shown tells every error apart |
| `Validation.Check` | src/pages/BookingPage.tsx:68-98 | the eight rule conditions of one draft; `Validation.FailedMeans` states each |
| `Validation.DraftErrors` | src/pages/BookingPage.tsx:68-98 | the errors one draft pushes; `Validation.DraftErrorsAreFailedRules`, `Validation.DraftErrorsEmptyIffValid` and `Validation.DraftErrorsAscending` state them |
| `Validation.ValidationErrors` | src/pages/BookingPage.tsx:65-99 | each draft's errors after those of the drafts before it; `Validation.ErrorsAreExactlyRaised` and `Validation.ErrorsOrdered` state the list |
| `Validation.PushedFrom` | src/pages/BookingPage.tsx:68-98 | the `if`s of rules k to 7 in turn; `Validation.PushedFromEmpty`, `Validation.PushedFromMembership` and `Validation.PushedFromAscending` state them |
| `Validation.CollectErrors` | src/pages/BookingPage.tsx:62-103 | the loop over the drafts returns the ordered error list, and reports success iff every draft passes every rule |
| `Validation.DraftErrorsEmptyIffValid` | src/pages/BookingPage.tsx:68-98 | a draft raises no error iff it has names, gender and date of birth, the first draft has email and phone, and any non-empty email or phone has the right shape |
| `Validation.PushedFromEmpty` | src/pages/BookingPage.tsx:68-98 | the `if`s of rules k to 7 push nothing iff none of those rules failed |
| `Validation.PushedFromMembership` | src/pages/BookingPage.tsx:68-98 | the `if`s of rules k to 7 push an error iff it is the error of one of those rules for this passenger number and that rule failed |
| `Validation.ContactOnlyFirst` | src/pages/BookingPage.tsx:84-90 | the contact rules can fail only for the first draft |
| `Validation.PushedFromAscending` | src/pages/BookingPage.tsx:68-98 | a draft's `if`s push in rule order, every error within the passenger's band of ranks, provided only the first passenger can fail the contact rules |
| `Validation.DraftErrorsAscending` | src/pages/BookingPage.tsx:65-98 | a draft's errors ascend strictly within its own band of ranks |
| `Validation.FailedMeans` | src/pages/BookingPage.tsx:84-98 | an error's rule condition holds for a draft (with the matchers read as the patterns) iff the error belongs to that draft and the draft fails that rule |
| `Validation.DraftErrorsAreFailedRules` | src/pages/BookingPage.tsx:68-98 | an error is raised for a draft iff that draft owns it and fails its rule |
| `Validation.ValidIffNoErrors` | src/pages/BookingPage.tsx:101-102 | validation succeeds iff every draft passes every rule |
| `Validation.ErrorsAreExactlyRaised` | src/pages/BookingPage.tsx:65-98 | an error is listed iff its rule fails. The contact errors are raised only for the first draft; a format error is raised only for a non-empty value, never for a missing one |
| `Validation.ErrorsOrdered` | src/pages/BookingPage.tsx:65-99 | the list is strictly ordered by draft, then by rule, so no error appears twice |
| `BookingPage.FindById` | src/pages/BookingPage.tsx:30 | the flight found is a result with that id; nothing is found iff no result has that id |
| `BookingPage.FindByIdFirst` | src/pages/BookingPage.tsx:30 | the flight found is the first result with that id |
| `BookingPage.SelectRouteFlight` | src/pages/BookingPage.tsx:28-38 | with no flight selected and an id in the route, the first result with that id is selected, or the page leaves when there is none; otherwise nothing changes |
| `BookingPage.BlankDraft` | src/pages/BookingPage.tsx:45-56 | draft i has id i+1 and empty text fields; email and phone are '' for the first draft and absent for the others; no special assistance; meal "Regular" |
| `BookingPage.InitialPassengers` | src/pages/BookingPage.tsx:43-56 | exactly `passengers` drafts, the i-th being the blank draft for position i |
| `BookingPage.InitializedDrafts` | src/pages/BookingPage.tsx:42-58 | existing drafts are left untouched; an empty list becomes exactly the blank drafts, one per passenger |
| `BookingPage.InitializationIdempotent` | src/pages/BookingPage.tsx:41-60 | running the effect twice is running it once |
| `BookingPage.InitialIdsDistinct` | src/pages/BookingPage.tsx:46 | the draft ids are pairwise distinct |
| `BookingPage.InitialDraftsErrors` | src/pages/BookingPage.tsx:45-90 | fresh drafts raise exactly the four required-field errors for every passenger plus the two contact errors, and no format error |
| `BookingPage.InitializePassengers` | src/pages/BookingPage.tsx:41-60 | the store's drafts become the initialised drafts |
| `BookingPage.ChangePassenger` | src/pages/BookingPage.tsx:224-228 | the draft at the index is replaced and every other draft is kept |
| `BookingPage.Stepper.constructor` | src/pages/BookingPage.tsx:23-25 | step 1, no errors shown, not loading |
| `BookingPage.Stepper.ValidatePassengerInfo` | src/pages/BookingPage.tsx:62-103 | the errors shown become the drafts' error list; it returns true iff the list is empty, iff every draft is valid |
| `BookingPage.Stepper.HandleContinue` | src/pages/BookingPage.tsx:105-125 | on step 1 it validates and moves to step 2 iff there are no errors, booking nothing. On step 2 it books: an id is returned iff a flight is selected and there are drafts; the last booking is then the new booking of the selected flight and the drafts, filed under that id with every other entry kept; on failure the store is unchanged and loading is switched off |
| `BookingPage.Stepper.HandleBack` | src/pages/BookingPage.tsx:127-134 | from step 2 it goes to step 1; on step 1 the step stays and the page navigates back |
| `BookingPage.SummaryMatchesBooking` | src/pages/BookingPage.tsx:338-342 | the booking made from the page's state costs exactly the base fare the summary shows for the same flight and number of drafts |
| `Display.JsRem` | src/components/flights/FlightCard.tsx:20 | JavaScript `%`: Dafny's remainder for a non-negative dividend; for a negative one it is exactly the negated remainder of the negated dividend, so it lies in (-b, 0] and keeps the sign of the dividend |
| `Display.FormatDuration` | src/components/flights/FlightCard.tsx:18-22 | the "{h}h {min}m" text; `Display.DurationParts`, `Display.DurationInjective` and `Display.DurationExample` state what it shows |
| `Display.DurationParts` | src/components/flights/FlightCard.tsx:18-22 | for m >= 0 the text is "{h}h {min}m" with min < 60 and h*60 + min = m |
| `Display.DurationInjective` | src/components/booking/BookingSummary.tsx:14-18 | different non-negative durations are shown differently |
| `Display.DurationExample` | src/components/booking/BookingSummary.tsx:14-18 | 135 minutes is shown as "2h 15m" |
| `Display.StopsLabel` | src/components/flights/FlightCard.tsx:67-69 | the stop text; `Display.StopsLabelShape` and `Display.StopsLabelInjective` state its cases |
| `Display.StopsLabelShape` | src/components/flights/FlightCard.tsx:67-69 | "Nonstop" iff 0 stops, "1 stop" iff 1, "n stops" for n >= 2 |
| `Display.StopsLabelInjective` | src/components/booking/BookingSummary.tsx:60-62 | different stop counts get different labels |
| `Display.PassengerWord` | src/components/booking/BookingSummary.tsx:95 | the word is singular iff the count is 1 |
| `Display.PassengerLabel` | src/components/booking/BookingSummary.tsx:103 | the count followed by its word; `Display.PassengerLabelInjective` states that it determines the count |
| `Display.PassengerLabelInjective` | src/components/booking/BookingSummary.tsx:103 | different counts get different passenger labels |
| `Display.BaggageText` | src/components/flights/FlightCard.tsx:176-178 | the Economy text appears iff the cabin class is exactly "Economy"; any other or missing class gets the Business/First text |
| `Display.AircraftLabel` | src/components/flights/FlightCard.tsx:136 | the aircraft when it is non-empty, else "Boeing 737"; never empty |
| `Display.FirstChar` | src/components/flights/FlightCard.tsx:36 | `charAt(0)`: the first character, or "" for an empty name |
| `Display.LogoSrc` | src/components/booking/BookingSummary.tsx:32 | a non-empty logo is used as it is; otherwise the placeholder URL followed by the airline's first character |
| `Display.BaseFare` | src/components/booking/BookingSummary.tsx:20 | price times passengers; `BookingPage.SummaryMatchesBooking` ties it to the booked total |
| `Display.GrandTotal` | src/components/booking/BookingSummary.tsx:21-22 | the grand total exceeds the base fare by exactly the taxes |
| `Results.Airlines` | src/pages/ResultsPage.tsx:22 | one airline name per result, position by position |
| `Results.Unique` | src/pages/ResultsPage.tsx:22 | the de-duplicated list is no longer than its input and holds only names from it |
| `Results.AirlineOptions` | src/pages/ResultsPage.tsx:22 | the airlines offered have no duplicates, include every result's airline, and each comes from some result |
| `Results.UniqueSpec` | src/pages/ResultsPage.tsx:22 | the airlines offered are exactly those present in the results, each once |
| `Results.UniquePrefix` | src/pages/ResultsPage.tsx:22 | later results never reorder airlines already listed |
| `Results.UniqueFirstOccurrence` | src/pages/ResultsPage.tsx:22 | airlines are listed in order of first occurrence |
| `Results.IsChecked` | src/pages/ResultsPage.tsx:123 | a box is ticked when nothing is selected or its airline is; `Results.CheckedMeansShown` ties it to the filter |
| `Results.CheckedMeansShown` | src/pages/ResultsPage.tsx:123 | for a flight in the price range, its airline's box is ticked iff the airline filter lets the flight through |
| `Results.FilterResults` | src/pages/ResultsPage.tsx:38-42 | the filtered list is no longer than the results, and every flight in it is a result that passes the airline and price filters |
| `Results.FilterResultsSpec` | src/pages/ResultsPage.tsx:38-42 | the filtered list holds exactly the results whose airline is selected, or all when none is, and whose price is in [lo, hi] inclusive, each as often as in the results and in result order |
| `Results.SortBy` | src/pages/ResultsPage.tsx:43-48 | sorting permutes the list |
| `Results.SortSorted` | src/pages/ResultsPage.tsx:43-48 | the sorted list is nondecreasing in the key |
| `Results.SortStable` | src/pages/ResultsPage.tsx:43-48 | flights with equal keys keep their order from the results |
| `Results.Displayed` | src/pages/ResultsPage.tsx:38-48 | the list shown holds the same flights, as often, as the filtered results |
| `Results.DisplayedSpec` | src/pages/ResultsPage.tsx:38-48 | the list shown is a sorted, stable permutation of exactly the passing results; the results themselves are only read |
| `Results.Toggled` | src/pages/ResultsPage.tsx:55-61 | the clicked airline's membership flips and every other airline's stays |
| `Results.ToggledNoDup` | src/pages/ResultsPage.tsx:55-61 | toggling keeps the selection free of duplicates |
| `Results.ToggleTwiceUnselected` | src/pages/ResultsPage.tsx:57-59 | toggling an unselected airline twice restores the selection exactly |
| `Results.ToggleTwiceSelected` | src/pages/ResultsPage.tsx:57-59 | toggling a selected airline twice keeps the same airlines without duplicates, with that airline moved to the end |
| `Results.ToggleFromEmptySelection` | src/pages/ResultsPage.tsx:123 | with nothing selected every box is ticked; clicking one leaves only that box ticked |
| `Results.ResultsView.constructor` | src/pages/ResultsPage.tsx:15-18 | sorted by price, no airline selected, price range [0, 2000] |
| `Results.ResultsView.ToggleAirline` | src/pages/ResultsPage.tsx:55-61 | the selection becomes its toggle, still without duplicates |
| `Results.ResultsView.SetSortBy` | src/pages/ResultsPage.tsx:217 | the sort key is replaced |
| `Results.ResultsView.SetPriceHigh` | src/pages/ResultsPage.tsx:145 | the slider sets the upper end of the range only |
| `Results.SelectFlight` | src/pages/ResultsPage.tsx:50-53 | the flight becomes the selected flight, and the route is "/booking/" followed by its id |
| `PassengerForm.HandleChange` | src/components/booking/PassengerForm.tsx:19-27 | a change never touches the id or the date of birth |
| `PassengerForm.TextChangeEditsOneField` | src/components/booking/PassengerForm.tsx:23-26 | a text change sets the named field to the raw value, email and phone becoming present with it; every other field, including an email or phone not named, and the checkbox are unchanged |
| `PassengerForm.CheckboxEditsOnlyAssistance` | src/components/booking/PassengerForm.tsx:21-25 | the checkbox stores the boolean `checked` and changes nothing else |
| `PassengerForm.ChangeToShownValue` | src/components/booking/PassengerForm.tsx:141 | retyping the shown value of a field that is present leaves the draft as it was |
| `PassengerForm.HandleDateChange` | src/components/booking/PassengerForm.tsx:29-34 | a cleared date sets the date of birth to '', a picked one to its ISO text; nothing else changes |
| `PassengerForm.RenderedFields` | src/components/booking/PassengerForm.tsx:131-165 | email and phone inputs exist iff the form is the primary contact's |
| `PassengerForm.NonPrimaryKeepsContact` | src/components/booking/PassengerForm.tsx:131-165 | no event a non-primary form can raise changes email or phone |
| `PassengerForm.NonPrimaryEditsKeepContact` | src/components/booking/PassengerForm.tsx:131-165 | any sequence of such events keeps email, phone and id |
| `SearchForm.PassengerOptionLabel` | src/pages/SearchPage.tsx:152-156 | the option text; `SearchForm.PassengerOptionLabelInjective` states that it names its count |
| `SearchForm.PassengerOptionLabelInjective` | src/pages/SearchPage.tsx:152-156 | different counts get different option labels, and 1 reads "1 Passenger" |
| `SearchForm.PassengerOptionsRange` | src/pages/SearchPage.tsx:152-156 | the passenger counts offered are exactly 1 to 9 |
| `SearchForm.SubmitOutcome` | src/pages/SearchPage.tsx:24-36 | rejected iff origin equals destination exactly; otherwise the six field values replace the parameters |
| `SearchForm.DefaultFormRejected` | src/pages/SearchPage.tsx:24-27 | the form for the store's defaults, with both places empty, is rejected; its count and class are offered options |
| `SearchForm.GuardIsCaseSensitive` | src/pages/SearchPage.tsx:24 | "Paris" to "paris" passes the guard, although the search treats the two alike |
| `SearchForm.SearchFormState.Fields` | src/pages/SearchPage.tsx:29-36 | the submitted parameters carry the form's origin and destination |
| `SearchForm.SearchFormState.constructor` | src/pages/SearchPage.tsx:13-19 | the local fields start as the store's parameters; not loading |
| `SearchForm.SearchFormState.SetFrom` | src/pages/SearchPage.tsx:76 | the origin becomes the typed text |
| `SearchForm.SearchFormState.SetTo` | src/pages/SearchPage.tsx:102 | the destination becomes the typed text |
| `SearchForm.SearchFormState.SetDepartDate` | src/pages/SearchPage.tsx:115 | the picked date, or today when cleared |
| `SearchForm.SearchFormState.SetReturnDate` | src/pages/SearchPage.tsx:131 | the picked date, or today when cleared, so a return date is then always set |
| `SearchForm.SearchFormState.SetPassengers` | src/pages/SearchPage.tsx:149 | the count becomes the offered option chosen |
| `SearchForm.SearchFormState.SetCabinClass` | src/pages/SearchPage.tsx:169 | the class becomes the offered option chosen |
| `SearchForm.SearchFormState.PickRoute` | src/pages/SearchPage.tsx:212-215 | a popular route sets both origin and destination |
| `SearchForm.SearchFormState.HandleSwapLocations` | src/pages/SearchPage.tsx:48-52 | origin and destination are exchanged and nothing else changes |
| `SearchForm.SearchFormState.HandleSubmit` | src/pages/SearchPage.tsx:21-38 | a submit is rejected, changing nothing, iff origin equals destination; otherwise the store's parameters become the six field values and the form is loading |
| `SearchForm.SwapTwice` | src/pages/SearchPage.tsx:48-52 | swapping twice restores origin and destination |

## Left out

- `Math.random`: the booking id takes the draw in [0, 10^6) as a parameter. Ids are not unique across calls; a repeated id overwrites the earlier booking, and the model states exactly that.
- Time values (`new Date()`, `addDays`, `toISOString`, the date pickers) and date-fns formatting: a `Date` is an abstract whole number. Today and the ISO text of a picked date are parameters.
- Flight departure and arrival times are given as instants. The 'departure' sort key compares them; parsing the ISO strings is not modelled.
- Flight ids may be numbers in the source; the model keeps their string form (`f.id.toString()`, the route text).
- BookingPage.Stepper.HandleContinue: the two-second `setTimeout` before booking is not modelled. The booking is made at once from the state at the click, which is the state the delayed call's closure sees. The navigation to the confirmation page becomes the returned id, and the error toast becomes a `None`.
- SearchForm.SearchFormState.HandleSubmit: the 1.5-second timeout that then runs the search and navigates is not modelled. Its `searchFlights` closure reads the parameters from before the submit, and scheduled timers are outside this model.
- The 1.5-second loading delay of the results page, navigation, toasts and `window.scrollTo`: these are browser effects with no state that the model keeps.
- Taxes: `Math.round(totalPrice * 0.15)` is floating-point arithmetic, so the tax amount is an input to the grand total.
- The price bounds `Math.min`/`Math.max` over the results, which can be infinite for an empty list, and `parseInt` of the slider value: the slider's value is an integer parameter.
- `toLowerCase` and `includes` follow Unicode in JavaScript; the model folds ASCII letters only.
- The catalog module `src/data/flights` is not part of this model. The store is created with an arbitrary sequence of flights.
- Flight prices, durations and stop counts are JavaScript numbers, which may be fractional or negative; the model takes them to be non-negative whole numbers (`nat`).
- Display.FirstChar: `charAt(0)` returns one UTF-16 code unit, while the model takes the whole first character, so the two differ for a name starting outside the Basic Multilingual Plane.
- SearchForm.SearchFormState.HandleSubmit: the From and To inputs are `required` (src/pages/SearchPage.tsx:78, 104), so the browser blocks a submit with either one empty before the handler runs. The model's handler accepts such a submit, as the handler itself does.
- `bookings[id] || null` also finds keys inherited from the object prototype in JavaScript; the model's map holds only the keys inserted.
- React state updates are batched and applied on the next render; the model's setters assign at once. The effects run when the model's client calls them.
- Presentational code with no logic to state: `ConfirmationPage`, the home page's own search form, the layout components, `formatTime`, the card's expand toggle, the filter panel toggle, and the payment form.
