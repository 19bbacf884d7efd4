/** `validatePassengerInfo` of src/pages/BookingPage.tsx: one pass over the
    drafts, pushing one error per failed rule, in draft order and, within a
    draft, in rule order. The two regular expressions are written out as
    predicates, each with a scanning matcher proved equal to it. */
module Validation {
  import opened Types
  import opened Text
  import Seqs

  // ---------------------------------------------------------------- email

  predicate NoWhitespace(s: string) {
    forall i | 0 <= i < |s| :: !IsJsWhitespace(s[i])
  }

  /** What `/^\S+@\S+\.\S+$/` accepts: no whitespace anywhere, an '@' after at
      least one character, and a '.' after at least one character past the
      '@' with at least one character after it. */
  ghost predicate EmailShaped(s: string) {
    && NoWhitespace(s)
    && exists i, j | 0 < i && i + 1 < j < |s| - 1 :: s[i] == '@' && s[j] == '.'
  }

  /** The first index at or after `k` holding `c`, or |s| when there is none. */
  function IndexFrom(s: string, c: char, k: nat): (r: nat)
    requires k <= |s|
    ensures k <= r <= |s|
    decreases |s| - k
  {
    if k == |s| then |s| else if s[k] == c then k else IndexFrom(s, c, k + 1)
  }

  lemma {:induction false} IndexFromFinds(s: string, c: char, k: nat)
    requires k <= |s|
    ensures var r := IndexFrom(s, c, k);
      && (r < |s| ==> s[r] == c)
      && (forall i | k <= i < r :: s[i] != c)
    decreases |s| - k
  {
    if k < |s| && s[k] != c {
      IndexFromFinds(s, c, k + 1);
    }
  }

  /** The last index below `k` holding `c`, or -1 when there is none. */
  function LastIndexBefore(s: string, c: char, k: nat): (r: int)
    requires k <= |s|
    ensures -1 <= r < k
  {
    if k == 0 then -1 else if s[k - 1] == c then k - 1 else LastIndexBefore(s, c, k - 1)
  }

  lemma {:induction false} LastIndexBeforeFinds(s: string, c: char, k: nat)
    requires k <= |s|
    ensures var r := LastIndexBefore(s, c, k);
      && (r >= 0 ==> s[r] == c)
      && (forall i | r < i < k :: s[i] != c)
  {
    if k > 0 && s[k - 1] != c {
      LastIndexBeforeFinds(s, c, k - 1);
    }
  }

  /** Matches the email pattern with two scans: the first '@' past position 0
      and the last '.' before the final character must be far enough apart. */
  predicate IsEmail(s: string) {
    && NoWhitespace(s)
    && 1 <= |s|
    && var at := IndexFrom(s, '@', 1);
       var dot := LastIndexBefore(s, '.', |s| - 1);
       at < |s| && at + 1 < dot
  }

  lemma EmailMatcherCorrect(s: string)
    ensures IsEmail(s) <==> EmailShaped(s)
  {
    if 1 <= |s| {
      IndexFromFinds(s, '@', 1);
      LastIndexBeforeFinds(s, '.', |s| - 1);
    }
    if IsEmail(s) {
      var at := IndexFrom(s, '@', 1);
      var dot := LastIndexBefore(s, '.', |s| - 1);
      assert 0 < at && at + 1 < dot < |s| - 1 && s[at] == '@' && s[dot] == '.';
    }
    if EmailShaped(s) {
      var i, j :| 0 < i && i + 1 < j < |s| - 1 && s[i] == '@' && s[j] == '.';
      var at := IndexFrom(s, '@', 1);
      var dot := LastIndexBefore(s, '.', |s| - 1);
      assert at <= i;
      assert j <= dot;
    }
  }

  // ---------------------------------------------------------------- phone

  /** The class `[0-9\s-()]`: digits, whitespace, '-', '(' and ')'. */
  predicate PhoneChar(c: char) {
    IsDigit(c) || IsJsWhitespace(c) || c == '-' || c == '(' || c == ')'
  }

  predicate AllPhoneChars(t: string) {
    forall i | 0 <= i < |t| :: PhoneChar(t[i])
  }

  /** What `/^\+?[0-9\s-()]{7,}$/` accepts: an optional '+', then at least
      seven characters of the class. */
  ghost predicate PhoneShaped(s: string) {
    exists t: string | s == t || s == "+" + t :: |t| >= 7 && AllPhoneChars(t)
  }

  /** Matches the phone pattern: drop one leading '+' ('+' is not in the
      class, so the optional part must take it), then check the rest. */
  predicate IsPhone(s: string) {
    var t := if |s| > 0 && s[0] == '+' then s[1..] else s;
    |t| >= 7 && AllPhoneChars(t)
  }

  lemma PhoneMatcherCorrect(s: string)
    ensures IsPhone(s) <==> PhoneShaped(s)
  {
    var t := if |s| > 0 && s[0] == '+' then s[1..] else s;
    if |s| > 0 && s[0] == '+' {
      assert s == "+" + t;
    }
    if IsPhone(s) {
      assert |t| >= 7 && AllPhoneChars(t);
    }
    if PhoneShaped(s) {
      var u: string :| (s == u || s == "+" + u) && |u| >= 7 && AllPhoneChars(u);
      assert t == u;
    }
  }

  // ---------------------------------------------------------------- errors

  /** One failed rule. The number carried is the 1-based passenger number;
      the two contact errors carry none. */
  datatype ValidationError =
    | MissingFirstName(passenger: nat)
    | MissingLastName(passenger: nat)
    | MissingGender(passenger: nat)
    | MissingDateOfBirth(passenger: nat)
    | MissingContactEmail
    | MissingContactPhone
    | InvalidEmail(passenger: nat)
    | InvalidPhone(passenger: nat)

  /** The text pushed onto the error list for each failed rule; only the
      two contact messages do not start with a passenger number. */
  function Message(e: ValidationError): (m: string)
    ensures |m| > 0
    ensures e.MissingContactEmail? || e.MissingContactPhone? <==> m[0] == 'C'
    ensures !(e.MissingContactEmail? || e.MissingContactPhone?) ==> |m| > 10 && m[..10] == "Passenger "
  {
    match e
    case MissingContactEmail => "Contact email is required"
    case MissingContactPhone => "Contact phone number is required"
    case _ => "Passenger " + Decimal(e.passenger) + ":" + RuleText(e)
  }

  /** What follows `Passenger ${passengerNum}:` in the six per-passenger messages. */
  function RuleText(e: ValidationError): string
    requires !(e.MissingContactEmail? || e.MissingContactPhone?)
  {
    match e
    case MissingFirstName(_) => " First name is required"
    case MissingLastName(_) => " Last name is required"
    case MissingGender(_) => " Gender is required"
    case MissingDateOfBirth(_) => " Date of birth is required"
    case InvalidEmail(_) => " Invalid email format"
    case InvalidPhone(_) => " Invalid phone number"
  }

  /** Different errors show different messages, so the list shown on the
      page holds no message twice either. */
  lemma MessageInjective(a: ValidationError, b: ValidationError)
    requires Message(a) == Message(b)
    ensures a == b
  {
    var ca := a.MissingContactEmail? || a.MissingContactPhone?;
    var cb := b.MissingContactEmail? || b.MissingContactPhone?;
    if !ca && !cb {
      PassengerMessage(a);
      PassengerMessage(b);
      SplitAtMarker(Decimal(a.passenger), RuleText(a), Decimal(b.passenger), RuleText(b), ':');
      DecimalInjective(a.passenger, b.passenger);
      RuleTextInjective(a, b);
    }
  }

  lemma PassengerMessage(e: ValidationError)
    requires !(e.MissingContactEmail? || e.MissingContactPhone?)
    ensures Message(e)[10..] == Decimal(e.passenger) + [':'] + RuleText(e)
  {
  }

  lemma RuleTextInjective(a: ValidationError, b: ValidationError)
    requires !(a.MissingContactEmail? || a.MissingContactPhone?)
    requires !(b.MissingContactEmail? || b.MissingContactPhone?)
    requires RuleText(a) == RuleText(b) && a.passenger == b.passenger
    ensures a == b
  {
    if a.InvalidEmail? || a.InvalidPhone? {
      assert RuleText(a)[9] == RuleText(b)[9];
    }
  }

  /** Which rules a draft fails, in rule order; `true` means the rule's
      `if` pushes its error. */
  datatype Verdicts = Verdicts(
    noFirstName: bool, noLastName: bool, noGender: bool, noDateOfBirth: bool,
    noContactEmail: bool, noContactPhone: bool, badEmail: bool, badPhone: bool)

  /** The conditions of the eight `if`s for the draft at 0-based `index`;
      only the first draft is asked for contact details, and a format is
      only checked on a non-empty value. */
  function Check(p: PassengerInfo, index: nat): Verdicts {
    Verdicts(
      p.firstName == "", p.lastName == "", p.gender == "", p.dateOfBirth == "",
      index == 0 && !Present(p.email), index == 0 && !Present(p.phone),
      Present(p.email) && !IsEmail(p.email.value),
      Present(p.phone) && !IsPhone(p.phone.value))
  }

  /** `[e]` when `failed`, nothing otherwise: one `if (...) errors.push(...)`. */
  function If(failed: bool, e: ValidationError): seq<ValidationError> {
    if failed then [e] else []
  }

  /** Whether rule `k` failed, the rules numbered 0 to 7 in the order of
      their `if`s. */
  function Failed(v: Verdicts, k: nat): bool
    requires k < 8
  {
    if k == 0 then v.noFirstName
    else if k == 1 then v.noLastName
    else if k == 2 then v.noGender
    else if k == 3 then v.noDateOfBirth
    else if k == 4 then v.noContactEmail
    else if k == 5 then v.noContactPhone
    else if k == 6 then v.badEmail
    else v.badPhone
  }

  /** The error rule `k` pushes for passenger number `n`. */
  function RuleError(k: nat, n: nat): ValidationError
    requires k < 8
  {
    if k == 0 then MissingFirstName(n)
    else if k == 1 then MissingLastName(n)
    else if k == 2 then MissingGender(n)
    else if k == 3 then MissingDateOfBirth(n)
    else if k == 4 then MissingContactEmail
    else if k == 5 then MissingContactPhone
    else if k == 6 then InvalidEmail(n)
    else InvalidPhone(n)
  }

  /** The number of the rule that pushes `e`. */
  function RuleOf(e: ValidationError): (k: nat)
    ensures k < 8
  {
    match e
    case MissingFirstName(_) => 0
    case MissingLastName(_) => 1
    case MissingGender(_) => 2
    case MissingDateOfBirth(_) => 3
    case MissingContactEmail => 4
    case MissingContactPhone => 5
    case InvalidEmail(_) => 6
    case InvalidPhone(_) => 7
  }

  /** What the `if`s of rules k to 7 push for verdicts `v` of passenger
      number `n`, in rule order. */
  function PushedFrom(v: Verdicts, n: nat, k: nat): seq<ValidationError>
    requires k <= 8
    decreases 8 - k
  {
    if k == 8 then [] else If(Failed(v, k), RuleError(k, n)) + PushedFrom(v, n, k + 1)
  }

  /** The errors of the draft at 0-based position `index`: all eight rules. */
  function DraftErrors(p: PassengerInfo, index: nat): seq<ValidationError> {
    PushedFrom(Check(p, index), index + 1, 0)
  }

  /** The whole error list: each draft's errors after those of the drafts before it. */
  function ValidationErrors(drafts: seq<PassengerInfo>): seq<ValidationError> {
    Seqs.Flatten(drafts, DraftErrors)
  }

  /** The `forEach` loop: push each draft's errors in turn; the result is
      valid exactly when nothing was pushed. */
  method CollectErrors(drafts: seq<PassengerInfo>) returns (errors: seq<ValidationError>, ok: bool)
    ensures errors == ValidationErrors(drafts)
    ensures ok <==> forall i | 0 <= i < |drafts| :: DraftValid(drafts[i], i)
  {
    errors := [];
    var i := 0;
    while i < |drafts|
      invariant 0 <= i <= |drafts|
      invariant errors == ValidationErrors(drafts[..i])
    {
      assert drafts[..i + 1][..i] == drafts[..i];
      errors := errors + DraftErrors(drafts[i], i);
      i := i + 1;
    }
    assert drafts[..i] == drafts;
    ok := |errors| == 0;
    ValidIffNoErrors(drafts);
  }

  // ---------------------------------------------------------------- meaning

  predicate IsContactError(e: ValidationError) {
    e.MissingContactEmail? || e.MissingContactPhone?
  }

  lemma RuleOfRuleError(k: nat, n: nat)
    requires k < 8
    ensures RuleOf(RuleError(k, n)) == k
  {
  }

  /** Rules k to 7 push nothing exactly when none of them failed. */
  lemma {:induction false} PushedFromEmpty(v: Verdicts, n: nat, k: nat)
    requires k <= 8
    ensures PushedFrom(v, n, k) == [] <==> forall j | k <= j < 8 :: !Failed(v, j)
    decreases 8 - k
  {
    if k < 8 {
      PushedFromEmpty(v, n, k + 1);
      EmptyConcat(If(Failed(v, k), RuleError(k, n)), PushedFrom(v, n, k + 1));
    }
  }

  /** Rules k to 7 push `e` exactly when `e` is the error of one of them for
      passenger n and that rule failed. */
  lemma {:induction false} PushedFromMembership(v: Verdicts, n: nat, k: nat, e: ValidationError)
    requires k <= 8
    ensures e in PushedFrom(v, n, k) <==>
      k <= RuleOf(e) && Failed(v, RuleOf(e)) && e == RuleError(RuleOf(e), n)
    decreases 8 - k
  {
    if k < 8 {
      PushedFromMembership(v, n, k + 1, e);
      RuleOfRuleError(k, n);
      InIfThen(Failed(v, k), RuleError(k, n), PushedFrom(v, n, k + 1), e);
    }
  }

  /** What one `if` followed by more pushes can contain. */
  lemma InIfThen(failed: bool, x: ValidationError, rest: seq<ValidationError>, e: ValidationError)
    ensures e in If(failed, x) + rest <==> (failed && e == x) || e in rest
  {
  }

  lemma EmptyConcat(a: seq<ValidationError>, b: seq<ValidationError>)
    ensures a + b == [] <==> a == [] && b == []
  {
    assert |a + b| == |a| + |b|;
  }

  /** No rule failed, rule by rule. */
  lemma NoneFailed(v: Verdicts)
    ensures (forall j | 0 <= j < 8 :: !Failed(v, j)) <==>
      && !v.noFirstName && !v.noLastName && !v.noGender && !v.noDateOfBirth
      && !v.noContactEmail && !v.noContactPhone && !v.badEmail && !v.badPhone
  {
    assert Failed(v, 0) == v.noFirstName && Failed(v, 1) == v.noLastName;
    assert Failed(v, 2) == v.noGender && Failed(v, 3) == v.noDateOfBirth;
    assert Failed(v, 4) == v.noContactEmail && Failed(v, 5) == v.noContactPhone;
    assert Failed(v, 6) == v.badEmail && Failed(v, 7) == v.badPhone;
  }

  /** A draft that passes every rule, stated independently of the error list. */
  ghost predicate DraftValid(p: PassengerInfo, index: nat) {
    && p.firstName != "" && p.lastName != "" && p.gender != "" && p.dateOfBirth != ""
    && (index == 0 ==> Present(p.email) && Present(p.phone))
    && (Present(p.email) ==> EmailShaped(p.email.value))
    && (Present(p.phone) ==> PhoneShaped(p.phone.value))
  }

  lemma DraftErrorsEmptyIffValid(p: PassengerInfo, index: nat)
    ensures DraftErrors(p, index) == [] <==> DraftValid(p, index)
  {
    PushedFromEmpty(Check(p, index), index + 1, 0);
    NoneFailed(Check(p, index));
    if Present(p.email) { EmailMatcherCorrect(p.email.value); }
    if Present(p.phone) { PhoneMatcherCorrect(p.phone.value); }
  }

  /** Validation succeeds exactly when every draft passes every rule. */
  lemma ValidIffNoErrors(drafts: seq<PassengerInfo>)
    ensures ValidationErrors(drafts) == [] <==> forall i | 0 <= i < |drafts| :: DraftValid(drafts[i], i)
  {
    Seqs.FlattenEmpty(drafts, DraftErrors);
    forall i | 0 <= i < |drafts|
      ensures DraftErrors(drafts[i], i) == [] <==> DraftValid(drafts[i], i)
    {
      DraftErrorsEmptyIffValid(drafts[i], i);
    }
  }

  /** The 0-based draft an error belongs to; the contact errors belong to the first. */
  function Owner(e: ValidationError): int {
    if IsContactError(e) then 0 else e.passenger - 1
  }

  /** Whether the rule behind `e` fails for the draft `p`. */
  ghost predicate FailsRule(p: PassengerInfo, e: ValidationError) {
    match e
    case MissingFirstName(_) => p.firstName == ""
    case MissingLastName(_) => p.lastName == ""
    case MissingGender(_) => p.gender == ""
    case MissingDateOfBirth(_) => p.dateOfBirth == ""
    case MissingContactEmail => !Present(p.email)
    case MissingContactPhone => !Present(p.phone)
    case InvalidEmail(_) => Present(p.email) && !EmailShaped(p.email.value)
    case InvalidPhone(_) => Present(p.phone) && !PhoneShaped(p.phone.value)
  }

  /** Whether the error `e` is raised for the drafts: the draft it belongs to
      exists and fails its rule. */
  ghost predicate Raised(drafts: seq<PassengerInfo>, e: ValidationError) {
    0 <= Owner(e) < |drafts| && FailsRule(drafts[Owner(e)], e)
  }

  /** The `if` of `e`'s rule, for the draft at `index`, holds exactly when
      `e` belongs to that draft and its rule fails. */
  lemma FailedMeans(p: PassengerInfo, index: nat, e: ValidationError)
    ensures Failed(Check(p, index), RuleOf(e)) && e == RuleError(RuleOf(e), index + 1)
      <==> Owner(e) == index && FailsRule(p, e)
  {
    if Present(p.email) { EmailMatcherCorrect(p.email.value); }
    if Present(p.phone) { PhoneMatcherCorrect(p.phone.value); }
  }

  lemma DraftErrorsAreFailedRules(p: PassengerInfo, index: nat, e: ValidationError)
    ensures e in DraftErrors(p, index) <==> Owner(e) == index && FailsRule(p, e)
  {
    PushedFromMembership(Check(p, index), index + 1, 0, e);
    FailedMeans(p, index, e);
  }

  /** An error is in the list exactly when its rule fails: the contact errors
      only for the first draft, a format error only for a non-empty value. */
  lemma {:induction false} ErrorsAreExactlyRaised(drafts: seq<PassengerInfo>, e: ValidationError)
    ensures e in ValidationErrors(drafts) <==> Raised(drafts, e)
    decreases |drafts|
  {
    if drafts != [] {
      var n := |drafts| - 1;
      var init := drafts[..n];
      assert ValidationErrors(drafts) == ValidationErrors(init) + DraftErrors(drafts[n], n);
      ErrorsAreExactlyRaised(init, e);
      DraftErrorsAreFailedRules(drafts[n], n, e);
      if 0 <= Owner(e) < n {
        assert init[Owner(e)] == drafts[Owner(e)];
      }
    }
  }

  /** The position of an error in the list's order: its draft, then its rule. */
  function Rank(e: ValidationError): int {
    8 * (Owner(e) + 1) + RuleOf(e)
  }

  ghost predicate StrictlyRanked(es: seq<ValidationError>) {
    forall k, l | 0 <= k < l < |es| :: Rank(es[k]) < Rank(es[l])
  }

  ghost predicate RanksWithin(es: seq<ValidationError>, lo: int, hi: int) {
    forall k | 0 <= k < |es| :: lo <= Rank(es[k]) < hi
  }

  /** The ranks rise strictly from one error to the next and all lie in
      [lo, hi); stated element by element, without quantifiers. */
  ghost predicate Ascending(es: seq<ValidationError>, lo: int, hi: int)
    decreases |es|
  {
    es == [] || (lo <= Rank(es[0]) < hi && Ascending(es[1..], Rank(es[0]) + 1, hi))
  }

  /** A lower bound may be lowered. */
  lemma AscendingFrom(es: seq<ValidationError>, lo: int, lo': int, hi: int)
    requires Ascending(es, lo', hi) && lo <= lo'
    ensures Ascending(es, lo, hi)
  {
  }

  /** A run in [lo, mid) followed by a run in [mid, hi) is a run in [lo, hi). */
  lemma {:induction false} AscendingConcat(a: seq<ValidationError>, b: seq<ValidationError>, lo: int, mid: int, hi: int)
    requires Ascending(a, lo, mid) && Ascending(b, mid, hi) && lo <= mid <= hi
    ensures Ascending(a + b, lo, hi)
    decreases |a|
  {
    if a == [] {
      assert a + b == b;
      AscendingFrom(b, lo, mid, hi);
    } else {
      AscendingConcat(a[1..], b, Rank(a[0]) + 1, mid, hi);
      assert (a + b)[1..] == a[1..] + b;
    }
  }

  /** An ascending run is strictly ranked, every rank in the band. */
  lemma {:induction false} AscendingMeans(es: seq<ValidationError>, lo: int, hi: int)
    requires Ascending(es, lo, hi)
    ensures StrictlyRanked(es) && RanksWithin(es, lo, hi)
    decreases |es|
  {
    if es != [] {
      AscendingMeans(es[1..], Rank(es[0]) + 1, hi);
      forall k | 0 < k < |es| ensures Rank(es[0]) < Rank(es[k]) {
        assert es[k] == es[1..][k - 1];
      }
      forall k, l | 0 < k < l < |es| ensures Rank(es[k]) < Rank(es[l]) {
        assert es[k] == es[1..][k - 1] && es[l] == es[1..][l - 1];
      }
      forall k | 0 < k < |es| ensures lo <= Rank(es[k]) < hi {
        assert es[k] == es[1..][k - 1];
      }
    }
  }

  /** Rule k's error for passenger n ranks in n's band at offset k, provided
      a contact error is only pushed for the first passenger. */
  lemma RankOfRuleError(k: nat, n: nat)
    requires k < 8 && n >= 1 && (k == 4 || k == 5 ==> n == 1)
    ensures Rank(RuleError(k, n)) == 8 * n + k
  {
  }

  /** One `if` in front of a run: its error, when pushed, has the lowest
      rank of the band. */
  lemma IfAscending(failed: bool, x: ValidationError, rest: seq<ValidationError>, lo: int, hi: int)
    requires failed ==> Rank(x) == lo
    requires lo < hi && Ascending(rest, lo + 1, hi)
    ensures Ascending(If(failed, x) + rest, lo, hi)
  {
    if failed {
      assert ([x] + rest)[1..] == rest;
    } else {
      assert [] + rest == rest;
    }
  }

  /** Rules k to 7 push in rule order, within passenger n's band of ranks;
      the contact rules may only fail for the first passenger. */
  lemma {:induction false} PushedFromAscending(v: Verdicts, n: nat, k: nat)
    requires k <= 8 && n >= 1
    requires n == 1 || (!Failed(v, 4) && !Failed(v, 5))
    ensures Ascending(PushedFrom(v, n, k), 8 * n + k, 8 * n + 8)
    decreases 8 - k
  {
    if k < 8 {
      PushedFromAscending(v, n, k + 1);
      if Failed(v, k) {
        RankOfRuleError(k, n);
      }
      IfAscending(Failed(v, k), RuleError(k, n), PushedFrom(v, n, k + 1), 8 * n + k, 8 * n + 8);
    }
  }

  lemma DraftErrorsAscending(p: PassengerInfo, index: nat)
    ensures Ascending(DraftErrors(p, index), 8 * (index + 1), 8 * (index + 2))
  {
    var v, n := Check(p, index), index + 1;
    ContactOnlyFirst(p, index);
    PushedFromAscending(v, n, 0);
    assert 8 * n + 0 == 8 * (index + 1) && 8 * n + 8 == 8 * (index + 2);
    assert DraftErrors(p, index) == PushedFrom(v, n, 0);
  }

  /** Only the first draft can fail the two contact rules. */
  lemma ContactOnlyFirst(p: PassengerInfo, index: nat)
    ensures index == 0 || (!Failed(Check(p, index), 4) && !Failed(Check(p, index), 5))
  {
  }

  /** Draft by draft, the list ascends through the bands 8 (first passenger)
      up to 8 * (N + 1). */
  lemma {:induction false} ErrorsAscending(drafts: seq<PassengerInfo>)
    ensures Ascending(ValidationErrors(drafts), 8, 8 * (|drafts| + 1))
    decreases |drafts|
  {
    if drafts != [] {
      var n := |drafts| - 1;
      var init := ValidationErrors(drafts[..n]);
      var last := DraftErrors(drafts[n], n);
      assert ValidationErrors(drafts) == init + last;
      ErrorsAscending(drafts[..n]);
      DraftErrorsAscending(drafts[n], n);
      AscendingConcat(init, last, 8, 8 * (n + 1), 8 * (n + 2));
    }
  }

  /** The list is ordered by draft, then by rule, strictly: no error appears
      twice, and every error of a draft comes before every error of a later one. */
  lemma ErrorsOrdered(drafts: seq<PassengerInfo>)
    ensures StrictlyRanked(ValidationErrors(drafts))
    ensures RanksWithin(ValidationErrors(drafts), 8, 8 * (|drafts| + 1))
  {
    ErrorsAscending(drafts);
    AscendingMeans(ValidationErrors(drafts), 8, 8 * (|drafts| + 1));
  }
}
