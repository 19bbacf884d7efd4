/** The booking-id formatter of src/utils/helpers.ts. The random draw
    `Math.floor(Math.random() * 1000000)` is a parameter: a number in [0, 10^6). */
module BookingIds {
  import opened Types
  import opened Text

  const Prefix: string := "SV-"
  const DigitCount: nat := 6
  /** The draws `Math.floor(Math.random() * 1000000)` can produce: [0, KeySpace). */
  const KeySpace: nat := 1000000

  /** `s.padStart(width, fill)` for a one-character fill. */
  function PadStart(s: string, width: nat, fill: char): (r: string)
    ensures |r| == if |s| >= width then |s| else width
    ensures r[|r| - |s|..] == s
    ensures forall i | 0 <= i < |r| - |s| :: r[i] == fill
  {
    if |s| >= width then s else seq(width - |s|, _ => fill) + s
  }

  /** `SV-` followed by the draw written in decimal, left-padded with '0' to six digits. */
  function GenerateBookingId(draw: nat): (id: string)
    ensures |id| >= |Prefix| + DigitCount && id[..|Prefix|] == Prefix
    ensures AllDigits(id[|Prefix|..])
  {
    Prefix + PadStart(Decimal(draw), DigitCount, '0')
  }

  /** Reads an id of the generated shape back to its number. */
  function ParseBookingId(id: string): (r: Option<nat>)
    ensures r.Some? ==> r.value < KeySpace
  {
    if |id| == |Prefix| + DigitCount && id[..|Prefix|] == Prefix && AllDigits(id[|Prefix|..]) then
      var n := DigitsValue(id[|Prefix|..]);
      DigitsBound(id[|Prefix|..]);
      Some(n)
    else None
  }

  /** Six digits denote a number below 10^6. */
  lemma {:induction false} DigitsBound(s: string)
    requires AllDigits(s)
    ensures DigitsValue(s) < Pow10(|s|)
    decreases |s|
  {
    if s != [] {
      DigitsBound(s[..|s| - 1]);
    }
  }

  /** The padded digits of a draw: `Zeros(6 - |digits|) + digits`. */
  lemma PaddedDigits(draw: nat)
    requires draw < KeySpace
    ensures var d := Decimal(draw);
      |d| <= DigitCount && PadStart(d, DigitCount, '0') == Zeros(DigitCount - |d|) + d
  {
    assert KeySpace == Pow10(DigitCount);
    DecimalLength(draw, DigitCount);
    var d := Decimal(draw);
    if |d| < DigitCount {
      assert seq(DigitCount - |d|, _ => '0') == Zeros(DigitCount - |d|);
    }
  }

  /** For a draw in [0, 10^6) the id is nine characters: the prefix and six digits. */
  lemma BookingIdShape(draw: nat)
    requires draw < KeySpace
    ensures var id := GenerateBookingId(draw);
      |id| == 9 && id[..3] == "SV-" && AllDigits(id[3..])
  {
    PaddedDigits(draw);
    var id := GenerateBookingId(draw);
    assert id[3..] == PadStart(Decimal(draw), DigitCount, '0');
  }

  /** Reading the six digits back yields the draw. */
  lemma BookingIdRoundTrip(draw: nat)
    requires draw < KeySpace
    ensures ParseBookingId(GenerateBookingId(draw)) == Some(draw)
  {
    PaddedDigits(draw);
    BookingIdShape(draw);
    var id := GenerateBookingId(draw);
    var d := Decimal(draw);
    assert id[|Prefix|..] == Zeros(DigitCount - |d|) + d;
    LeadingZeros(DigitCount - |d|, d);
    DecimalRoundTrip(draw);
  }

  /** Distinct draws give distinct ids. */
  lemma BookingIdInjective(a: nat, b: nat)
    requires a < KeySpace && b < KeySpace && a != b
    ensures GenerateBookingId(a) != GenerateBookingId(b)
  {
    BookingIdRoundTrip(a);
    BookingIdRoundTrip(b);
  }

  /** Draws below 100000 are left-padded with '0': the first digit is '0'. */
  lemma BookingIdPadded(draw: nat)
    requires draw < 100000
    ensures GenerateBookingId(draw)[3] == '0'
  {
    assert Pow10(5) == 100000;
    DecimalLength(draw, 5);
    PaddedDigits(draw);
  }

  /** A draw of at least 100000 fills all six digits, so no '0' is added. */
  lemma BookingIdUnpadded(draw: nat)
    requires 100000 <= draw < KeySpace
    ensures GenerateBookingId(draw) == Prefix + Decimal(draw)
  {
    assert Pow10(5) == 100000;
    DecimalLengthAtLeast(draw, 5);
    PaddedDigits(draw);
  }

  /** The worked example: the draw 42 becomes "SV-000042". */
  lemma BookingIdExample()
    ensures GenerateBookingId(42) == "SV-000042"
  {
    assert Decimal(42) == "42";
    PaddedDigits(42);
    assert Zeros(4) == "0000";
  }
}
