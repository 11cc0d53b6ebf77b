/** The inline "Request a Callback" form of the lead-capture section: three
    text fields, a submit lifecycle Idle -> Submitting -> Success, and a log
    of the notifications it raises. Success is final: nothing in the section
    ever clears `isSuccess`, and while it holds the thank-you panel replaces
    the form, so at most one request is ever sent from one mount. */
module LeadCapture {
  import opened Validation
  import opened Notices
  import opened FormConstraints

  class LeadCaptureForm {
    var name: string
    var phone: string
    var email: string
    var isSubmitting: bool
    var isSuccess: bool
    /** The simulated 1500 ms request is awaited: the rest of the submit
        handler is still to run. */
    var responsePending: bool
    /** Every notification raised so far, oldest first. */
    var notices: seq<Notice>

    /** The request is in flight exactly while the button shows "submitting";
        submitting and success never hold together; and one success
        notification has been raised exactly when the form has succeeded. */
    ghost predicate Valid()
      reads this
    {
      responsePending == isSubmitting
      && !(isSubmitting && isSuccess)
      && multiset(notices)[CallbackConfirmed] == (if isSuccess then 1 else 0)
    }

    /** The form (not the thank-you panel) is on screen and its submit button
        is enabled. */
    predicate CanSubmit()
      reads this
    {
      !isSuccess && !isSubmitting
    }

    constructor ()
      ensures Valid()
      ensures name == "" && phone == "" && email == ""
      ensures !isSubmitting && !isSuccess && !responsePending && notices == []
    {
      name, phone, email := "", "", "";
      isSubmitting, isSuccess, responsePending := false, false, false;
      notices := [];
    }

    /** The name input's change handler. */
    method EditName(value: string)
      requires Valid()
      modifies this`name
      ensures Valid() && name == value
    {
      name := value;
    }

    /** The phone input's change handler. */
    method EditPhone(value: string)
      requires Valid()
      modifies this`phone
      ensures Valid() && phone == value
    {
      phone := value;
    }

    /** The email input's change handler. */
    method EditEmail(value: string)
      requires Valid()
      modifies this`email
      ensures Valid() && email == value
    {
      email := value;
    }

    /** A press of the submit button: the browser's constraint checks, then
        the submit handler up to its `await`. The fields are never changed;
        only the browser looks at the email. */
    method Submit() returns (outcome: SubmitOutcome)
      requires Valid()
      modifies this`isSubmitting, this`responsePending, this`notices
      ensures Valid()
      ensures !old(CanSubmit()) ==>
                outcome == Ignored && unchanged(this)
      ensures old(CanSubmit()) && !LeadFormSubmittable(name, phone, email) ==>
                outcome == Blocked && unchanged(this)
      ensures old(CanSubmit()) && LeadFormSubmittable(name, phone, email)
              && Validate(name, phone).Rejected? ==>
                outcome == Refused(Validate(name, phone).error)
                && notices == old(notices) + [ErrorNotice(outcome.error)]
                && !isSubmitting && !responsePending
      ensures old(CanSubmit()) && LeadFormSubmittable(name, phone, email)
              && Validate(name, phone) == Accepted ==>
                outcome == Started
                && notices == old(notices)
                && isSubmitting && responsePending
    {
      if !CanSubmit() {
        return Ignored;
      }
      if !LeadFormSubmittable(name, phone, email) {
        return Blocked;
      }
      var verdict := Validate(name, phone);
      if verdict.Rejected? {
        notices := notices + [ErrorNotice(verdict.error)];
        return Refused(verdict.error);
      }
      isSubmitting := true;
      responsePending := true;
      outcome := Started;
    }

    /** The simulated request resolves: the submit handler after its `await`.
        The fields are kept; only the flags move on and one success
        notification is raised. */
    method SubmitResolves()
      requires Valid() && responsePending
      modifies this`isSubmitting, this`isSuccess, this`responsePending, this`notices
      ensures Valid()
      ensures !isSubmitting && isSuccess && !responsePending
      ensures notices == old(notices) + [CallbackConfirmed]
    {
      isSubmitting := false;
      isSuccess := true;
      responsePending := false;
      notices := notices + [CallbackConfirmed];
    }
  }

  /** One mount of the section, driven through a whole submission: a second
      press while the request is in flight and a press after success both
      go unheeded, and exactly one success notification is raised. */
  method SingleSubmissionPerMount(name: string, phone: string, email: string)
    returns (first: SubmitOutcome, during: SubmitOutcome, after: SubmitOutcome, log: seq<Notice>)
    requires Validate(name, phone) == Accepted && EmailSatisfied(email)
    ensures first == Started && during == Ignored && after == Ignored
    ensures log == [CallbackConfirmed]
  {
    AcceptedIsNotEmpty(name, phone);
    var form := new LeadCaptureForm();
    form.EditName(name);
    form.EditPhone(phone);
    form.EditEmail(email);
    assert form.name == name && form.phone == phone && form.CanSubmit();
    first := form.Submit();
    assert form.isSubmitting && form.notices == [];
    during := form.Submit();
    form.SubmitResolves();
    after := form.Submit();
    log := form.notices;
  }

  /** The browser's checks run before the handler. With only the phone typed
      in, the browser stops the press at the empty name and no notification
      is raised; a name of spaces passes the browser and the handler refuses
      it; a malformed email is stopped by the browser although the handler
      would accept the submission. */
  method BrowserChecksComeFirst(name: string, spaces: string, phone: string, badEmail: string)
    returns (emptyName: SubmitOutcome, spacesName: SubmitOutcome, withBadEmail: SubmitOutcome,
             log: seq<Notice>)
    requires Validate(name, phone) == Accepted
    requires spaces != [] && AllWhitespace(spaces)
    requires !EmailSatisfied(badEmail)
    ensures emptyName == Blocked
    ensures spacesName == Refused(MissingRequiredFields)
    ensures withBadEmail == Blocked
    ensures log == [RequiredFieldsMissing]
  {
    AcceptedIsNotEmpty(name, phone);
    EmailExamples();
    MissingFieldsIff(spaces, phone);
    var form := new LeadCaptureForm();
    form.EditPhone(phone);
    emptyName := form.Submit();
    form.EditName(spaces);
    spacesName := form.Submit();
    form.EditName(name);
    form.EditEmail(badEmail);
    withBadEmail := form.Submit();
    log := form.notices;
  }
}
