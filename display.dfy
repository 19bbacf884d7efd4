/** The text and arithmetic of the flight card
    (src/components/flights/FlightCard.tsx) and the booking summary
    (src/components/booking/BookingSummary.tsx): durations, stop and
    passenger labels, fallbacks for missing catalog fields, and fares. */
module Display {
  import opened Types
  import opened Text

  /** JavaScript's `a % b` for a positive divisor: the remainder takes the
      sign of `a` (truncating division), unlike Dafny's `%`. */
  function JsRem(a: int, b: int): (r: int)
    requires b > 0
    ensures a >= 0 ==> 0 <= r < b && r == a % b
    ensures a < 0 ==> -b < r <= 0 && r == -((-a) % b)
  {
    if a >= 0 then a % b else -((-a) % b)
  }

  /** `${Math.floor(minutes / 60)}h ${minutes % 60}m`. Dafny's `/` by a
      positive divisor already rounds down, as `Math.floor` does. */
  function FormatDuration(minutes: int): string {
    IntString(minutes / 60) + "h " + IntString(JsRem(minutes, 60)) + "m"
  }

  /** For a non-negative duration the text shows whole hours and the
      remaining minutes, below 60, which add back up to the duration. */
  lemma DurationParts(minutes: nat)
    ensures var h, m := minutes / 60, minutes % 60;
      && FormatDuration(minutes) == Decimal(h) + "h " + Decimal(m) + "m"
      && 0 <= m < 60 && h * 60 + m == minutes
  {
  }

  /** "<h>h <m>m" splits uniquely when the hour part holds no 'h'. */
  lemma SplitHoursMinutes(h1: string, m1: string, h2: string, m2: string)
    requires forall i | 0 <= i < |h1| :: h1[i] != 'h'
    requires forall i | 0 <= i < |h2| :: h2[i] != 'h'
    requires h1 + "h " + m1 + "m" == h2 + "h " + m2 + "m"
    ensures h1 == h2 && m1 == m2
  {
    var t1, t2 := " " + m1 + "m", " " + m2 + "m";
    assert h1 + ['h'] + t1 == h1 + "h " + m1 + "m";
    assert h2 + ['h'] + t2 == h2 + "h " + m2 + "m";
    SplitAtMarker(h1, t1, h2, t2, 'h');
    assert m1 == t1[1..|t1| - 1];
    assert m2 == t2[1..|t2| - 1];
  }

  /** Hours and minutes can be read back from "<h>h <m>m". */
  lemma HoursMinutesInjective(h1: nat, m1: nat, h2: nat, m2: nat)
    requires Decimal(h1) + "h " + Decimal(m1) + "m" == Decimal(h2) + "h " + Decimal(m2) + "m"
    ensures h1 == h2 && m1 == m2
  {
    var d1, d2 := Decimal(h1), Decimal(h2);
    assert forall i | 0 <= i < |d1| :: IsDigit(d1[i]);
    assert forall i | 0 <= i < |d2| :: IsDigit(d2[i]);
    SplitHoursMinutes(d1, Decimal(m1), d2, Decimal(m2));
    DecimalInjective(h1, h2);
    DecimalInjective(m1, m2);
  }

  /** Different non-negative durations are shown differently. */
  lemma DurationInjective(a: nat, b: nat)
    requires FormatDuration(a) == FormatDuration(b)
    ensures a == b
  {
    DurationParts(a);
    DurationParts(b);
    HoursMinutesInjective(a / 60, a % 60, b / 60, b % 60);
  }

  /** The worked example: 135 minutes read "2h 15m". */
  lemma DurationExample()
    ensures FormatDuration(135) == "2h 15m"
  {
    assert Decimal(2) == "2";
    assert Decimal(15) == "15";
  }

  /** "Nonstop", else the count and "stop" or "stops". */
  function StopsLabel(stops: nat): string {
    if stops == 0 then "Nonstop"
    else Decimal(stops) + " " + (if stops == 1 then "stop" else "stops")
  }

  /** The label starts with the number of stops exactly when there are any,
      and the plural is used for two or more. */
  lemma StopsLabelShape(stops: nat)
    ensures stops == 0 <==> StopsLabel(stops) == "Nonstop"
    ensures stops == 1 <==> StopsLabel(stops) == "1 stop"
    ensures stops >= 2 ==> StopsLabel(stops) == Decimal(stops) + " stops"
  {
    if stops >= 1 {
      var d := Decimal(stops);
      assert StopsLabel(stops)[0] == d[0] && IsDigit(d[0]);
      if StopsLabel(stops) == "1 stop" {
        assert d == "1";
        DecimalInjective(stops, 1);
      }
    }
  }

  /** Different stop counts get different labels. */
  lemma StopsLabelInjective(a: nat, b: nat)
    requires StopsLabel(a) == StopsLabel(b)
    ensures a == b
  {
    if a == 0 || b == 0 {
      StopsLabelShape(a);
      StopsLabelShape(b);
    } else {
      var wa := if a == 1 then "stop" else "stops";
      var wb := if b == 1 then "stop" else "stops";
      assert Decimal(a) + [' '] + wa == StopsLabel(a);
      assert Decimal(b) + [' '] + wb == StopsLabel(b);
      SplitAtMarker(Decimal(a), wa, Decimal(b), wb, ' ');
      DecimalInjective(a, b);
    }
  }

  /** "passenger" for exactly one, "passengers" otherwise (zero included). */
  function PassengerWord(count: nat): (w: string)
    ensures w == "passenger" <==> count == 1
    ensures w == "passengers" <==> count != 1
  {
    if count == 1 then "passenger" else "passengers"
  }

  /** `${passengers} passenger(s)`. */
  function PassengerLabel(count: nat): string {
    Decimal(count) + " " + PassengerWord(count)
  }

  /** The label names the count it was made from, with the matching word. */
  lemma PassengerLabelInjective(a: nat, b: nat)
    requires PassengerLabel(a) == PassengerLabel(b)
    ensures a == b
  {
    assert Decimal(a) + [' '] + PassengerWord(a) == PassengerLabel(a);
    assert Decimal(b) + [' '] + PassengerWord(b) == PassengerLabel(b);
    SplitAtMarker(Decimal(a), PassengerWord(a), Decimal(b), PassengerWord(b), ' ');
    DecimalInjective(a, b);
  }

  const EconomyBaggage: string := "Economy includes 1 carry-on bag and 1 personal item. First checked bag may have a fee."
  const PremiumBaggage: string := "Business/First Class includes 2 checked bags, 1 carry-on, and 1 personal item."

  /** The baggage note: the Economy text for a cabin class of exactly
      "Economy", the Business/First text for anything else, including a
      missing class and "Premium Economy". */
  function BaggageText(cabinClass: Option<string>): (t: string)
    ensures t == EconomyBaggage <==> cabinClass == Some("Economy")
    ensures t == PremiumBaggage <==> cabinClass != Some("Economy")
  {
    if cabinClass == Some("Economy") then EconomyBaggage else PremiumBaggage
  }

  const DefaultAircraft: string := "Boeing 737"

  /** `flight.aircraft || 'Boeing 737'`. */
  function AircraftLabel(aircraft: Option<string>): (a: string)
    ensures Present(aircraft) ==> a == aircraft.value
    ensures !Present(aircraft) ==> a == DefaultAircraft
    ensures a != ""
  {
    if Present(aircraft) then aircraft.value else DefaultAircraft
  }

  const PlaceholderLogo: string := "https://via.placeholder.com/48?text="

  /** `airline.charAt(0)`: the first character, or "" for an empty name. */
  function FirstChar(s: string): (r: string)
    ensures |r| == if s == [] then 0 else 1
    ensures r <= s
  {
    if s == [] then "" else [s[0]]
  }

  /** `flight.airlineLogo || placeholder + airline.charAt(0)`. */
  function LogoSrc(logo: Option<string>, airline: string): (src: string)
    ensures Present(logo) ==> src == logo.value
    ensures !Present(logo) ==>
      && |src| >= |PlaceholderLogo|
      && src[..|PlaceholderLogo|] == PlaceholderLogo
      && src[|PlaceholderLogo|..] == FirstChar(airline)
  {
    if Present(logo) then logo.value else PlaceholderLogo + FirstChar(airline)
  }

  /** The fare before taxes: the price per person times the passengers. */
  function BaseFare(price: nat, passengers: nat): (fare: nat) {
    price * passengers
  }

  /** The amount due: the base fare plus the taxes, which are an input here. */
  function GrandTotal(price: nat, passengers: nat, taxes: nat): (total: nat)
    ensures total >= BaseFare(price, passengers)
    ensures total - BaseFare(price, passengers) == taxes
  {
    BaseFare(price, passengers) + taxes
  }
}
