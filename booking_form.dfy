/**
  * The booking form's data and its validation (js/booking.js lines 22-57):
  * `validateForm` runs six checks one after the other, never stopping early,
  * and collects one Portuguese error text per failed check; `isValidEmail`
  * tests the e-mail against `/^[^\s@]+@[^\s@]+\.[^\s@]+$/`.
  */
module BookingForm {
  import opened Wrappers
  import opened JsText

  /** The values read from the form's eight fields when it is submitted. */
  datatype FormData = FormData(
    name: string,
    email: string,
    phone: string,
    service: string,
    date: string,
    time: string,
    vehicle: string,
    message: string)

  /** The seven errors `validateForm` can report; `Text` gives the string it pushes. */
  datatype BookingError =
    | NameRequired | PhoneRequired | EmailRequired | EmailInvalid
    | ServiceRequired | DateRequired | TimeRequired
  {
    function Text(): string {
      match this
      case NameRequired => "Por favor, insira seu nome"
      case PhoneRequired => "Por favor, insira seu telefone"
      case EmailRequired => "Por favor, insira seu email"
      case EmailInvalid => "Por favor, insira um email válido"
      case ServiceRequired => "Por favor, selecione um serviço"
      case DateRequired => "Por favor, selecione uma data"
      case TimeRequired => "Por favor, selecione um horário"
    }

    /** The check that reports this error. */
    function ReportedBy(): Check {
      match this
      case NameRequired => NameCheck
      case PhoneRequired => PhoneCheck
      case EmailRequired | EmailInvalid => EmailCheck
      case ServiceRequired => ServiceCheck
      case DateRequired => DateCheck
      case TimeRequired => TimeCheck
    }

    /** The position, in the order the checks run, of the check that reports this error. */
    function Rank(): nat {
      CheckRank(ReportedBy())
    }
  }

  // ---------------------------------------------------------------------------
  // isValidEmail
  // ---------------------------------------------------------------------------

  /** The regular-expression class `[^\s@]`. */
  predicate IsEmailChar(c: char) {
    !IsJsWhitespace(c) && c != '@'
  }

  /**
    * `/^[^\s@]+@[^\s@]+\.[^\s@]+$/` read literally: `s` splits at an `@` (position
    * `at`) and a later `.` (position `dot`) into three non-empty runs of `[^\s@]`.
    */
  ghost predicate MatchesEmailPattern(s: string) {
    exists at, dot :: SplitsAsEmail(s, at, dot)
  }

  ghost predicate SplitsAsEmail(s: string, at: int, dot: int) {
    && 0 < at && at + 1 < dot && dot + 1 < |s|
    && s[at] == '@' && s[dot] == '.'
    && (forall k :: 0 <= k < |s| && k != at ==> IsEmailChar(s[k]))
  }

  /** The position of the first `c` in `s`. */
  function IndexOf(s: string, c: char): (r: Option<nat>)
    ensures r.None? ==> c !in s
    ensures r.Some? ==> r.value < |s| && s[r.value] == c
    ensures r.Some? ==> forall k :: 0 <= k < r.value ==> s[k] != c
  {
    if s == [] then None
    else if s[0] == c then Some(0)
    else
      var rest := IndexOf(s[1..], c);
      if rest.None? then None else Some(rest.value + 1)
  }

  /**
    * `isValidEmail(email)`: no whitespace, exactly one `@`, something before it,
    * and a `.` after it with something on both sides of the `.`.
    */
  predicate IsValidEmail(email: string) {
    && (forall k :: 0 <= k < |email| ==> !IsJsWhitespace(email[k]))
    && var at := IndexOf(email, '@');
    && at.Some?
    && 0 < at.value
    && '@' !in email[at.value + 1..]
    && at.value + 2 <= |email| - 1
    && '.' in email[at.value + 2..|email| - 1]
  }

  /** The explicit test accepts exactly the strings the regular expression matches. */
  lemma IsValidEmailIffPattern(s: string)
    ensures IsValidEmail(s) <==> MatchesEmailPattern(s)
  {
    if IsValidEmail(s) {
      var at := IndexOf(s, '@').value;
      var domainInner := s[at + 2..|s| - 1];
      var j :| 0 <= j < |domainInner| && domainInner[j] == '.';
      var dot := at + 2 + j;
      forall k | 0 <= k < |s| && k != at ensures IsEmailChar(s[k]) {
        if k > at {
          assert s[k] == s[at + 1..][k - at - 1];
        }
      }
      assert SplitsAsEmail(s, at, dot);
    }
    if MatchesEmailPattern(s) {
      var at, dot :| SplitsAsEmail(s, at, dot);
      assert s[at] in s;
      assert IndexOf(s, '@') == Some(at);
      var domain := s[at + 1..];
      assert '@' !in domain by {
        forall k | 0 <= k < |domain| ensures domain[k] != '@' {
          assert domain[k] == s[at + 1 + k];
        }
      }
      assert s[at + 2..|s| - 1][dot - at - 2] == '.';
    }
  }

  /** `isValidEmail` is applied to the untrimmed value: surrounding whitespace makes it fail. */
  lemma PaddedEmailIsInvalid(s: string)
    requires s != [] && (IsJsWhitespace(s[0]) || IsJsWhitespace(s[|s| - 1]))
    ensures !IsValidEmail(s)
  {
  }

  // ---------------------------------------------------------------------------
  // validateForm
  // ---------------------------------------------------------------------------

  /** The six checks, in the order `validateForm` runs them. */
  datatype Check = NameCheck | PhoneCheck | EmailCheck | ServiceCheck | DateCheck | TimeCheck

  const CheckOrder: seq<Check> := [NameCheck, PhoneCheck, EmailCheck, ServiceCheck, DateCheck, TimeCheck]

  function CheckRank(c: Check): nat {
    match c
    case NameCheck => 0
    case PhoneCheck => 1
    case EmailCheck => 2
    case ServiceCheck => 3
    case DateCheck => 4
    case TimeCheck => 5
  }

  /** The error a single check reports for `f`, if any. */
  function Verdict(c: Check, f: FormData): Option<BookingError> {
    match c
    case NameCheck => if Trim(f.name) == "" then Some(NameRequired) else None
    case PhoneCheck => if Trim(f.phone) == "" then Some(PhoneRequired) else None
    case EmailCheck =>
      if Trim(f.email) == "" then Some(EmailRequired)
      else if !IsValidEmail(f.email) then Some(EmailInvalid)
      else None
    case ServiceCheck => if f.service == "" then Some(ServiceRequired) else None
    case DateCheck => if f.date == "" then Some(DateRequired) else None
    case TimeCheck => if f.time == "" then Some(TimeRequired) else None
  }

  /** What each check reports, in the order `validateForm` runs them. */
  function Verdicts(f: FormData): (vs: seq<Option<BookingError>>)
    ensures |vs| == |CheckOrder|
    ensures forall i :: 0 <= i < |vs| ==> vs[i] == Verdict(CheckOrder[i], f)
  {
    [Verdict(NameCheck, f), Verdict(PhoneCheck, f), Verdict(EmailCheck, f),
     Verdict(ServiceCheck, f), Verdict(DateCheck, f), Verdict(TimeCheck, f)]
  }

  function Listed<T>(v: Option<T>): seq<T> {
    if v.Some? then [v.value] else []
  }

  /** The reported errors, in order, skipping the checks that passed. */
  function Collect<T>(vs: seq<Option<T>>): seq<T> {
    if vs == [] then [] else Listed(vs[0]) + Collect(vs[1..])
  }

  /** The errors `validateForm` is to return for `f`. */
  function ExpectedErrors(f: FormData): seq<BookingError> {
    Collect(Verdicts(f))
  }

  /**
    * The condition under which the form passes: name, phone and e-mail are not blank,
    * the untrimmed e-mail is valid, and service, date and time are not empty
    * (these three are not trimmed).
    */
  predicate IsCompleteBooking(f: FormData) {
    && !IsBlank(f.name)
    && !IsBlank(f.phone)
    && !IsBlank(f.email)
    && IsValidEmail(f.email)
    && f.service != ""
    && f.date != ""
    && f.time != ""
  }

  /** `validateForm(formData)`: every check runs, and each failure appends its text. */
  method ValidateForm(f: FormData) returns (errors: seq<BookingError>)
    ensures errors == ExpectedErrors(f)
  {
    ghost var l0, l1, l2 := Listed(Verdict(NameCheck, f)), Listed(Verdict(PhoneCheck, f)), Listed(Verdict(EmailCheck, f));
    ghost var l3, l4, l5 := Listed(Verdict(ServiceCheck, f)), Listed(Verdict(DateCheck, f)), Listed(Verdict(TimeCheck, f));
    errors := [];
    if Trim(f.name) == "" {
      errors := errors + [NameRequired];
    }
    assert errors == l0;
    if Trim(f.phone) == "" {
      errors := errors + [PhoneRequired];
    }
    assert errors == l0 + l1;
    if Trim(f.email) == "" {
      errors := errors + [EmailRequired];
    } else if !IsValidEmail(f.email) {
      errors := errors + [EmailInvalid];
    }
    assert errors == l0 + l1 + l2;
    if f.service == "" {
      errors := errors + [ServiceRequired];
    }
    assert errors == l0 + l1 + l2 + l3;
    if f.date == "" {
      errors := errors + [DateRequired];
    }
    assert errors == l0 + l1 + l2 + l3 + l4;
    if f.time == "" {
      errors := errors + [TimeRequired];
    }
    assert errors == l0 + l1 + l2 + l3 + l4 + l5;
    ExpectedErrorsInSteps(f);
  }

  /** At most one error per check, and none exactly for a complete booking. */
  lemma ExpectedErrorsBounded(f: FormData)
    ensures |ExpectedErrors(f)| <= 6
    ensures ExpectedErrors(f) == [] <==> IsCompleteBooking(f)
  {
    CollectLength(Verdicts(f));
    NoErrorsIffComplete(f);
  }

  lemma CollectCons<T>(vs: seq<Option<T>>)
    requires vs != []
    ensures Collect(vs) == Listed(vs[0]) + Collect(vs[1..])
  {
  }

  lemma CollectOfSix<T>(vs: seq<Option<T>>)
    requires |vs| == 6
    ensures Collect(vs) ==
      Listed(vs[0]) + (Listed(vs[1]) + (Listed(vs[2]) + (Listed(vs[3]) + (Listed(vs[4]) + Listed(vs[5])))))
  {
    var l0, l1, l2 := Listed(vs[0]), Listed(vs[1]), Listed(vs[2]);
    var l3, l4, l5 := Listed(vs[3]), Listed(vs[4]), Listed(vs[5]);
    assert Collect(vs[6..]) == [];
    CollectCons(vs[5..]);
    assert vs[5..][1..] == vs[6..];
    assert Collect(vs[5..]) == l5 + [];
    assert Collect(vs[5..]) == l5;
    CollectCons(vs[4..]);
    assert vs[4..][1..] == vs[5..];
    assert Collect(vs[4..]) == l4 + l5;
    CollectCons(vs[3..]);
    assert vs[3..][1..] == vs[4..];
    assert Collect(vs[3..]) == l3 + (l4 + l5);
    CollectCons(vs[2..]);
    assert vs[2..][1..] == vs[3..];
    assert Collect(vs[2..]) == l2 + (l3 + (l4 + l5));
    CollectCons(vs[1..]);
    assert vs[1..][1..] == vs[2..];
    assert Collect(vs[1..]) == l1 + (l2 + (l3 + (l4 + l5)));
    CollectCons(vs);
  }

  /** The expected errors are the six checks' errors appended one after the other. */
  lemma ExpectedErrorsInSteps(f: FormData)
    ensures ExpectedErrors(f) ==
      Listed(Verdict(NameCheck, f)) + Listed(Verdict(PhoneCheck, f)) + Listed(Verdict(EmailCheck, f))
      + Listed(Verdict(ServiceCheck, f)) + Listed(Verdict(DateCheck, f)) + Listed(Verdict(TimeCheck, f))
  {
    var vs := Verdicts(f);
    CollectOfSix(vs);
    Reassociate(Listed(vs[0]), Listed(vs[1]), Listed(vs[2]), Listed(vs[3]), Listed(vs[4]), Listed(vs[5]));
  }

  lemma Reassociate<T>(a: seq<T>, b: seq<T>, c: seq<T>, d: seq<T>, e: seq<T>, f: seq<T>)
    ensures a + b + c + d + e + f == a + (b + (c + (d + (e + f))))
  {
  }

  lemma {:induction false} CollectLength<T>(vs: seq<Option<T>>)
    ensures |Collect(vs)| <= |vs|
  {
    if vs != [] {
      CollectLength(vs[1..]);
    }
  }

  /** A text is reported exactly when some check reports it. */
  lemma {:induction false} CollectHas<T>(vs: seq<Option<T>>, m: T)
    ensures m in Collect(vs) <==> Some(m) in vs
  {
    if vs != [] {
      CollectHas(vs[1..], m);
      assert Some(m) in vs <==> vs[0] == Some(m) || Some(m) in vs[1..] by {
        assert vs == [vs[0]] + vs[1..];
      }
    }
  }

  /** `validateForm` returns no error exactly when the booking is complete. */
  lemma NoErrorsIffComplete(f: FormData)
    ensures ExpectedErrors(f) == [] <==> IsCompleteBooking(f)
  {
    TrimEmptyIffBlank(f.name);
    TrimEmptyIffBlank(f.phone);
    TrimEmptyIffBlank(f.email);
    CollectOfSix(Verdicts(f));
  }

  /** The condition under which `validateForm` reports `e`. */
  predicate Raises(f: FormData, e: BookingError) {
    match e
    case NameRequired => IsBlank(f.name)
    case PhoneRequired => IsBlank(f.phone)
    case EmailRequired => IsBlank(f.email)
    case EmailInvalid => !IsBlank(f.email) && !IsValidEmail(f.email)
    case ServiceRequired => f.service == ""
    case DateRequired => f.date == ""
    case TimeRequired => f.time == ""
  }

  /** Each error is reported exactly when its condition holds. */
  lemma ErrorReportedIff(f: FormData, e: BookingError)
    ensures e in ExpectedErrors(f) <==> Raises(f, e)
  {
    var vs := Verdicts(f);
    CollectHas(vs, e);
    assert Some(e) in vs <==> vs[e.Rank()] == Some(e);
    match e
    case NameRequired => TrimEmptyIffBlank(f.name);
    case PhoneRequired => TrimEmptyIffBlank(f.phone);
    case EmailRequired => TrimEmptyIffBlank(f.email);
    case EmailInvalid => TrimEmptyIffBlank(f.email);
    case _ =>
  }

  /** A blank e-mail is reported as missing, never also as invalid. */
  lemma EmailReportedOnce(f: FormData)
    ensures !(EmailRequired in ExpectedErrors(f) && EmailInvalid in ExpectedErrors(f))
  {
    ErrorReportedIff(f, EmailRequired);
    ErrorReportedIff(f, EmailInvalid);
  }

  lemma {:induction false} CollectRanks(vs: seq<Option<BookingError>>, base: int)
    requires forall i :: 0 <= i < |vs| && vs[i].Some? ==> vs[i].value.Rank() == base + i
    ensures forall i :: 0 <= i < |Collect(vs)| ==> base <= Collect(vs)[i].Rank()
    ensures forall i, j :: 0 <= i < j < |Collect(vs)| ==>
      Collect(vs)[i].Rank() < Collect(vs)[j].Rank()
  {
    if vs != [] {
      var head, tail := Listed(vs[0]), Collect(vs[1..]);
      CollectRanks(vs[1..], base + 1);
      var r := Collect(vs);
      assert forall i :: 0 <= i < |r| ==> r[i] == if i < |head| then head[i] else tail[i - |head|];
    }
  }

  /** The errors come in the fixed order name, phone, e-mail, service, date, time. */
  lemma ErrorsInCheckOrder(f: FormData)
    ensures forall i, j :: 0 <= i < j < |ExpectedErrors(f)| ==>
      0 <= ExpectedErrors(f)[i].Rank() < ExpectedErrors(f)[j].Rank()
  {
    var vs := Verdicts(f);
    forall i | 0 <= i < |vs| && vs[i].Some? ensures vs[i].value.Rank() == i {
      var c := CheckOrder[i];
      assert vs[i] == Verdict(c, f);
      assert CheckRank(c) == i;
    }
    CollectRanks(vs, 0);
    var r := ExpectedErrors(f);
    assert r == Collect(vs);
    forall i, j | 0 <= i < j < |r| ensures r[i].Rank() < r[j].Rank() {
      assert Collect(vs)[i].Rank() < Collect(vs)[j].Rank();
    }
  }
}
