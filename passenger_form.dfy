/** The edit handlers of src/components/booking/PassengerForm.tsx: every
    input names the draft field it edits, and a change produces a copy of
    the draft with that one field replaced. */
module PassengerForm {
  import opened Types

  /** The inputs and selects that carry a `name`, as the field they edit. */
  datatype TextField = FirstName | LastName | Gender | PassportNumber | Email | Phone | MealPreference

  /** A change event: a text input or select with its raw value, or the
      special-assistance checkbox with its `checked` state. */
  datatype ChangeEvent =
    | TextChange(field: TextField, value: string)
    | CheckboxChange(checked: bool)

  /** What a text input or select shows: the field's value, with a missing
      email or phone shown as "" (`passenger.email || ''`). */
  function Shown(p: PassengerInfo, field: TextField): string {
    match field
    case FirstName => p.firstName
    case LastName => p.lastName
    case Gender => p.gender
    case PassportNumber => p.passportNumber
    case Email => if p.email.Some? then p.email.value else ""
    case Phone => if p.phone.Some? then p.phone.value else ""
    case MealPreference => p.mealPreference
  }

  /** `{ ...passenger, [name]: type === 'checkbox' ? checked : value }`. */
  function HandleChange(p: PassengerInfo, e: ChangeEvent): (r: PassengerInfo)
    ensures r.id == p.id && r.dateOfBirth == p.dateOfBirth
  {
    match e
    case CheckboxChange(checked) => p.(specialAssistance := checked)
    case TextChange(field, value) =>
      match field
      case FirstName => p.(firstName := value)
      case LastName => p.(lastName := value)
      case Gender => p.(gender := value)
      case PassportNumber => p.(passportNumber := value)
      case Email => p.(email := Some(value))
      case Phone => p.(phone := Some(value))
      case MealPreference => p.(mealPreference := value)
  }

  /** A text change shows the raw value typed and leaves every other input
      and the checkbox as they were. */
  lemma TextChangeEditsOneField(p: PassengerInfo, field: TextField, value: string, other: TextField)
    ensures var r := HandleChange(p, TextChange(field, value));
      && Shown(r, field) == value
      && (other != field ==> Shown(r, other) == Shown(p, other))
      && r.specialAssistance == p.specialAssistance
      && (field == Email ==> r.email == Some(value))
      && (field == Phone ==> r.phone == Some(value))
      && (field != Email ==> r.email == p.email)
      && (field != Phone ==> r.phone == p.phone)
  {
  }

  /** The checkbox stores the boolean `checked` and leaves every input as it was. */
  lemma CheckboxEditsOnlyAssistance(p: PassengerInfo, checked: bool, field: TextField)
    ensures var r := HandleChange(p, CheckboxChange(checked));
      r.specialAssistance == checked && Shown(r, field) == Shown(p, field)
      && r.email == p.email && r.phone == p.phone
  {
  }

  /** Editing a field that is present to what it already shows changes
      nothing. */
  lemma ChangeToShownValue(p: PassengerInfo, field: TextField)
    requires field == Email ==> p.email.Some?
    requires field == Phone ==> p.phone.Some?
    ensures HandleChange(p, TextChange(field, Shown(p, field))) == p
  {
  }

  /** `dateOfBirth: date ? date.toISOString() : ''`; the ISO rendering of
      the picked date is given, a cleared picker is `None`. */
  function HandleDateChange(p: PassengerInfo, iso: Option<string>): (r: PassengerInfo)
    ensures iso.None? ==> r.dateOfBirth == ""
    ensures iso.Some? ==> r.dateOfBirth == iso.value
    ensures r.(dateOfBirth := p.dateOfBirth) == p
  {
    p.(dateOfBirth := if iso.Some? then iso.value else "")
  }

  /** The inputs a form renders: contact fields only for the primary contact. */
  function RenderedFields(isPrimaryContact: bool): (fields: set<TextField>)
    ensures Email in fields <==> isPrimaryContact
    ensures Phone in fields <==> isPrimaryContact
  {
    var common := {FirstName, LastName, Gender, PassportNumber, MealPreference};
    if isPrimaryContact then common + {Email, Phone} else common
  }

  /** An event the form can raise: from a rendered input, or the checkbox. */
  predicate Raisable(isPrimaryContact: bool, e: ChangeEvent) {
    e.TextChange? ==> e.field in RenderedFields(isPrimaryContact)
  }

  /** A form that is not the primary contact's never edits email or phone. */
  lemma NonPrimaryKeepsContact(p: PassengerInfo, e: ChangeEvent)
    requires Raisable(false, e)
    ensures HandleChange(p, e).email == p.email && HandleChange(p, e).phone == p.phone
  {
  }

  /** Applying the events a non-primary form can raise, one after the other. */
  function ApplyAll(p: PassengerInfo, events: seq<ChangeEvent>): PassengerInfo
    decreases |events|
  {
    if events == [] then p else ApplyAll(HandleChange(p, events[0]), events[1..])
  }

  /** However long the editing, a non-primary draft keeps its contact fields
      (so a draft created without them still has none). */
  lemma {:induction false} NonPrimaryEditsKeepContact(p: PassengerInfo, events: seq<ChangeEvent>)
    requires forall i | 0 <= i < |events| :: Raisable(false, events[i])
    ensures ApplyAll(p, events).email == p.email && ApplyAll(p, events).phone == p.phone
    ensures ApplyAll(p, events).id == p.id
    decreases |events|
  {
    if events != [] {
      NonPrimaryKeepsContact(p, events[0]);
      NonPrimaryEditsKeepContact(HandleChange(p, events[0]), events[1..]);
    }
  }
}
