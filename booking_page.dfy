/**
  * The booking page's submit handler and phone listener (js/booking.js lines 124-179
  * and 194-211) as a state machine over the page's form fields and submit button.
  *
  * The handler is asynchronous: it validates, switches the button to its busy
  * look, then awaits a 500 ms timer before building the link. The two halves on
  * either side of the `await` are `Submit` and `Resume`; `Pending` carries what
  * the first half hands to the second (the values read from the form, and the
  * button's markup before it was replaced). The browser's side effects (toasts and
  * the opened window) are appended, in order, to `effects`.
  */
module BookingPage {
  import opened Wrappers
  import opened JsText
  import opened BookingForm
  import opened BookingMessage
  import opened PhoneMask

  datatype ToastKind = Success | Error

  datatype Effect =
    | ShowToast(text: string, kind: ToastKind)
    | OpenWindow(url: string, target: string)

  /** The state carried across the handler's `await`. */
  datatype Pending = Pending(data: FormData, originalHtml: string)

  const BusyHtml: string := "<span class=\"spinner\"></span> Processando..."
  const RedirectText: string := "Redirecionando para WhatsApp..."
  const FailureText: string := "Erro ao processar agendamento"

  /** `errors.forEach(error => showToast(error, 'error'))`. */
  function ErrorToasts(errors: seq<BookingError>): (toasts: seq<Effect>)
    ensures |toasts| == |errors|
    ensures forall i :: 0 <= i < |errors| ==> toasts[i] == ShowToast(errors[i].Text(), Error)
  {
    if errors == [] then [] else [ShowToast(errors[0].Text(), Error)] + ErrorToasts(errors[1..])
  }

  /** The effects of the second half of the handler, when nothing in its `try` throws. */
  function SuccessEffects(p: Pending, formattedDate: string): seq<Effect> {
    [OpenWindow(WhatsAppUrl(p.data, formattedDate), "_blank"), ShowToast(RedirectText, Success)]
  }

  class BookingPage {
    /** The current values of the form's eight fields. */
    var form: FormData
    /** The values `form.reset()` restores (the fields' default values). */
    const defaults: FormData
    /** The submit button's `disabled` flag, its `loading` class and its markup. */
    var disabled: bool
    var loading: bool
    var buttonHtml: string
    /** The button's markup as the page was loaded. */
    const idleHtml: string
    /** Toasts shown and windows opened, oldest first. */
    var effects: seq<Effect>

    /** The button is enabled and shows its own label: no submission is in flight. */
    predicate Idle()
      reads this
    {
      !disabled && !loading && buttonHtml == idleHtml
    }

    constructor(defaults: FormData, idleHtml: string)
      ensures this.defaults == defaults && this.idleHtml == idleHtml
      ensures form == defaults && effects == []
      ensures Idle()
    {
      this.defaults := defaults;
      this.idleHtml := idleHtml;
      form := defaults;
      disabled := false;
      loading := false;
      buttonHtml := idleHtml;
      effects := [];
    }

    /**
      * The phone field's `input` listener: `raw` is the field's value after the
      * keystroke, and the field is rewritten to its masked form.
      */
    method OnPhoneInput(raw: string)
      modifies this
      ensures form == old(form).(phone := FormatPhone(raw))
      ensures disabled == old(disabled) && loading == old(loading)
      ensures buttonHtml == old(buttonHtml) && effects == old(effects)
    {
      form := form.(phone := FormatPhone(raw));
    }

    /**
      * The handler up to its `await`: on validation errors one error toast per
      * error and nothing else; otherwise the button turns busy and the values
      * read from the form travel on in the returned `Pending`.
      */
    method Submit() returns (next: Option<Pending>)
      modifies this
      ensures form == old(form)
      ensures next.None? <==> ExpectedErrors(old(form)) != []
      ensures next.None? ==>
        && effects == old(effects) + ErrorToasts(ExpectedErrors(old(form)))
        && disabled == old(disabled) && loading == old(loading) && buttonHtml == old(buttonHtml)
      ensures next.Some? ==>
        && next.value == Pending(old(form), old(buttonHtml))
        && effects == old(effects)
        && disabled && loading && buttonHtml == BusyHtml
    {
      var data := form;
      var errors := ValidateForm(data);
      if |errors| > 0 {
        ShowErrorToasts(errors);
        return None;
      }
      disabled := true;
      loading := true;
      var originalHtml := buttonHtml;
      buttonHtml := BusyHtml;
      next := Some(Pending(data, originalHtml));
    }

    /** `errors.forEach(error => showToast(error, 'error'))`: one toast per error, in order. */
    method ShowErrorToasts(errors: seq<BookingError>)
      modifies this
      ensures effects == old(effects) + ErrorToasts(errors)
      ensures form == old(form) && disabled == old(disabled)
      ensures loading == old(loading) && buttonHtml == old(buttonHtml)
    {
      var i := 0;
      while i < |errors|
        invariant 0 <= i <= |errors|
        invariant form == old(form) && disabled == old(disabled)
        invariant loading == old(loading) && buttonHtml == old(buttonHtml)
        invariant effects == old(effects) + ErrorToasts(errors[..i])
      {
        ErrorToastsAppend(errors[..i], errors[i]);
        assert errors[..i + 1] == errors[..i] + [errors[i]];
        effects := effects + [ShowToast(errors[i].Text(), Error)];
        i := i + 1;
      }
      assert errors[..i] == errors;
    }

    /**
      * The handler after its `await`. When the `try` block runs through, the
      * WhatsApp link built from the submitted values is opened in a new tab, the
      * success toast is shown and the form is reset; when it throws (`raises`),
      * only the failure toast is shown. Either way the `finally` block gives the
      * button back its earlier markup and enables it.
      */
    method Resume(p: Pending, formattedDate: string, raises: bool)
      modifies this
      ensures !raises ==>
        && effects == old(effects) + SuccessEffects(p, formattedDate)
        && form == defaults
      ensures raises ==>
        && effects == old(effects) + [ShowToast(FailureText, Error)]
        && form == old(form)
      ensures !disabled && !loading && buttonHtml == p.originalHtml
    {
      if !raises {
        var url := WhatsAppUrl(p.data, formattedDate);
        effects := effects + [OpenWindow(url, "_blank")];
        effects := effects + [ShowToast(RedirectText, Success)];
        form := defaults;
      } else {
        effects := effects + [ShowToast(FailureText, Error)];
      }
      disabled := false;
      loading := false;
      buttonHtml := p.originalHtml;
    }
  }

  lemma ErrorToastsAppend(errors: seq<BookingError>, e: BookingError)
    ensures ErrorToasts(errors + [e]) == ErrorToasts(errors) + [ShowToast(e.Text(), Error)]
  {
    var lhs, rhs := ErrorToasts(errors + [e]), ErrorToasts(errors) + [ShowToast(e.Text(), Error)];
    assert |lhs| == |rhs|;
    forall i | 0 <= i < |lhs| ensures lhs[i] == rhs[i] {
      assert (errors + [e])[i] == if i < |errors| then errors[i] else e;
    }
  }

  /** Distinct errors show distinct toast texts, so every toast names its failed check. */
  lemma ErrorTextsDistinct(a: BookingError, b: BookingError)
    ensures a.Text() == b.Text() <==> a == b
  {
  }

  /**
    * A full submission from an idle page: when the values pass validation, the
    * submit and its continuation open the link, show the success toast, reset the
    * form and leave the page idle again; when they fail, only the error toasts
    * appear and the page stays idle with its values kept.
    */
  method SubmitAndResume(page: BookingPage, formattedDate: string, raises: bool)
    requires page.Idle()
    modifies page
    ensures page.Idle()
    ensures ExpectedErrors(old(page.form)) != [] ==>
      page.effects == old(page.effects) + ErrorToasts(ExpectedErrors(old(page.form)))
      && page.form == old(page.form)
    ensures ExpectedErrors(old(page.form)) == [] && !raises ==>
      page.effects == old(page.effects) + SuccessEffects(Pending(old(page.form), page.idleHtml), formattedDate)
      && page.form == page.defaults
    ensures ExpectedErrors(old(page.form)) == [] && raises ==>
      page.effects == old(page.effects) + [ShowToast(FailureText, Error)]
      && page.form == old(page.form)
  {
    var next := page.Submit();
    if next.Some? {
      page.Resume(next.value, formattedDate, raises);
    }
  }

  lemma TrimKeepsLeadingText(s: string)
    requires s != [] && !IsJsWhitespace(s[0])
    ensures Trim(s) != ""
  {
    TrimEmptyIffBlank(s);
  }

  lemma DotlessDomainIsInvalid()
    ensures !IsValidEmail("ana@mail")
  {
    var e := "ana@mail";
    assert IndexOf(e, '@') == Some(3);
    assert e[5..7] == "ai";
  }

  /** An e-mail without a dot after the `@` is the only complaint about an otherwise filled form. */
  lemma BadEmailScenario()
    ensures ExpectedErrors(FormData("Ana", "ana@mail", "(79) 99999-7279", "brakes", "2025-03-10", "09:00", "", ""))
      == [EmailInvalid]
  {
    var f := FormData("Ana", "ana@mail", "(79) 99999-7279", "brakes", "2025-03-10", "09:00", "", "");
    DotlessDomainIsInvalid();
    TrimKeepsLeadingText(f.name);
    TrimKeepsLeadingText(f.phone);
    TrimKeepsLeadingText(f.email);
    var vs := Verdicts(f);
    assert vs == [None, None, Some(EmailInvalid), None, None, None];
    CollectOfSix(vs);
  }
}
