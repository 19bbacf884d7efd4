/** The records the booking core passes around (src/types/index.ts), as values. */
module Types {

  datatype Option<T> = None | Some(value: T)

  datatype Result<T, E> = Ok(value: T) | Err(error: E)

  /** A calendar instant (`Date`), kept abstract: a whole number of days. */
  type Date = int

  /** One catalog flight. Departure and arrival times are the instants the
      source parses out of its ISO strings. Durations, stop counts and prices
      are taken to be non-negative whole numbers. */
  datatype Flight = Flight(
    id: string,
    airline: string,
    airlineLogo: Option<string>,
    flightNumber: string,
    departureCity: string,
    departureCode: string,
    departureTime: int,
    arrivalCity: string,
    arrivalCode: string,
    arrivalTime: int,
    durationMinutes: nat,
    stops: nat,
    price: nat,
    cabinClass: Option<string>,
    aircraft: Option<string>)

  datatype SearchParams = SearchParams(
    from: string,
    to: string,
    departDate: Date,
    returnDate: Option<Date>,
    passengers: nat,
    cabinClass: string)

  /** A passenger draft; `email` and `phone` are optional (`undefined` is `None`). */
  datatype PassengerInfo = PassengerInfo(
    id: nat,
    firstName: string,
    lastName: string,
    gender: string,
    dateOfBirth: string,
    passportNumber: string,
    email: Option<string>,
    phone: Option<string>,
    specialAssistance: bool,
    mealPreference: string)

  datatype BookingStatus = Confirmed | Pending | Cancelled

  datatype Booking = Booking(
    id: string,
    flight: Flight,
    passengers: seq<PassengerInfo>,
    totalPrice: int,
    bookingDate: Date,
    status: BookingStatus)

  /** JavaScript truthiness of an optional string: present and non-empty. */
  predicate Present(s: Option<string>) {
    s.Some? && s.value != ""
  }
}
