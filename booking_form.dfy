/** The booking form inside the modal dialog: four text fields, the same
    validation as the inline form, the lifecycle Idle -> Submitting ->
    Success -> Idle, and a reset 2000 ms after success that empties the
    fields and asks the owner to close the dialog (`onClose`). The component
    stays mounted while the dialog is closed (only its content is hidden),
    so its state and its pending timers outlive a close; the reset timer is
    never cancelled. */
module BookingForm {
  import opened Validation
  import opened Notices
  import opened FormConstraints

  class BookingFormModal {
    var name: string
    var phone: string
    var email: string
    var message: string
    var isSubmitting: bool
    var isSuccess: bool
    /** The simulated 1500 ms request is awaited. */
    var responsePending: bool
    /** The 2000 ms reset timer is scheduled and has not fired. */
    var resetPending: bool
    /** Every notification raised so far, oldest first. */
    var notices: seq<Notice>
    /** How many times `onClose` has been called by the reset. */
    var closeRequests: nat
    /** How many submissions have reached success. */
    ghost var completed: nat

    /** The request is in flight exactly while "submitting" shows, the reset is
        scheduled exactly while the success panel shows, the two never show
        together, each completed submission raised one "Booking Request Sent!"
        notification, and each one whose reset has fired called `onClose`
        once. */
    ghost predicate Valid()
      reads this
    {
      responsePending == isSubmitting
      && resetPending == isSuccess
      && !(isSubmitting && isSuccess)
      && multiset(notices)[BookingRequestSent] == completed
      && closeRequests + (if isSuccess then 1 else 0) == completed
    }

    /** The form is on screen (dialog open, no success panel) and its submit
        button is enabled. */
    predicate CanSubmit(dialogOpen: bool)
      reads this
    {
      dialogOpen && !isSuccess && !isSubmitting
    }

    predicate FieldsEmpty()
      reads this
    {
      name == "" && phone == "" && email == "" && message == ""
    }

    constructor ()
      ensures Valid() && FieldsEmpty()
      ensures !isSubmitting && !isSuccess && !responsePending && !resetPending
      ensures notices == [] && closeRequests == 0 && completed == 0
    {
      name, phone, email, message := "", "", "", "";
      isSubmitting, isSuccess := false, false;
      responsePending, resetPending := false, false;
      notices, closeRequests := [], 0;
      completed := 0;
    }

    /** The name input's change handler. */
    method EditName(value: string)
      requires Valid()
      modifies this`name
      ensures Valid() && name == value
    {
      name := value;
    }

    /** The phone input's change handler. */
    method EditPhone(value: string)
      requires Valid()
      modifies this`phone
      ensures Valid() && phone == value
    {
      phone := value;
    }

    /** The email input's change handler. */
    method EditEmail(value: string)
      requires Valid()
      modifies this`email
      ensures Valid() && email == value
    {
      email := value;
    }

    /** The message text area's change handler. */
    method EditMessage(value: string)
      requires Valid()
      modifies this`message
      ensures Valid() && message == value
    {
      message := value;
    }

    /** A press of the submit button while the dialog is `dialogOpen`: the
        browser's constraint checks, then the submit handler up to its
        `await`. A blocked or refused submission changes no field or flag,
        schedules nothing and does not call `onClose`; only the browser looks
        at the email, and nothing looks at the message. */
    method Submit(dialogOpen: bool) returns (outcome: SubmitOutcome)
      requires Valid()
      modifies this`isSubmitting, this`responsePending, this`notices
      ensures Valid()
      ensures !old(CanSubmit(dialogOpen)) ==>
                outcome == Ignored && unchanged(this)
      ensures old(CanSubmit(dialogOpen)) && !LeadFormSubmittable(name, phone, email) ==>
                outcome == Blocked && unchanged(this)
      ensures old(CanSubmit(dialogOpen)) && LeadFormSubmittable(name, phone, email)
              && Validate(name, phone).Rejected? ==>
                outcome == Refused(Validate(name, phone).error)
                && notices == old(notices) + [ErrorNotice(outcome.error)]
                && !isSubmitting && !responsePending
      ensures old(CanSubmit(dialogOpen)) && LeadFormSubmittable(name, phone, email)
              && Validate(name, phone) == Accepted ==>
                outcome == Started
                && notices == old(notices)
                && isSubmitting && responsePending
    {
      if !CanSubmit(dialogOpen) {
        return Ignored;
      }
      if !LeadFormSubmittable(name, phone, email) {
        return Blocked;
      }
      var verdict := Validate(name, phone);
      if verdict.Rejected? {
        notices := notices + [ErrorNotice(verdict.error)];
        return Refused(verdict.error);
      }
      isSubmitting := true;
      responsePending := true;
      outcome := Started;
    }

    /** The simulated request resolves: the submit handler after its `await`
        shows the success panel, raises one notification and schedules the
        reset. It runs whether or not the dialog is still open. */
    method SubmitResolves()
      requires Valid() && responsePending
      modifies this`isSubmitting, this`isSuccess, this`responsePending,
               this`resetPending, this`notices, this`completed
      ensures Valid()
      ensures !isSubmitting && isSuccess && !responsePending && resetPending
      ensures notices == old(notices) + [BookingRequestSent]
      ensures completed == old(completed) + 1
    {
      isSubmitting := false;
      isSuccess := true;
      responsePending := false;
      notices := notices + [BookingRequestSent];
      completed := completed + 1;
      resetPending := true;
    }

    /** The reset timer fires: the success panel goes, all four fields are
        emptied and `onClose` is called exactly once. */
    method ResetFires()
      requires Valid() && resetPending
      modifies this
      ensures Valid() && FieldsEmpty()
      ensures !isSubmitting && !isSuccess && !responsePending && !resetPending
      ensures notices == old(notices) && completed == old(completed)
      ensures closeRequests == old(closeRequests) + 1
    {
      isSuccess := false;
      name, phone, email, message := "", "", "", "";
      resetPending := false;
      closeRequests := closeRequests + 1;
    }
  }

  /** One booking made through an open dialog: a second press while the
      request is in flight and a press while the success panel shows both go
      unheeded; after the reset the form is empty and ready again, `onClose`
      has been called once, and one success notification was raised. */
  method SingleBookingCycle(name: string, phone: string, email: string, message: string)
    returns (first: SubmitOutcome, during: SubmitOutcome, onPanel: SubmitOutcome,
             closes: nat, log: seq<Notice>, emptied: bool, ready: bool)
    requires Validate(name, phone) == Accepted && EmailSatisfied(email)
    ensures first == Started && during == Ignored && onPanel == Ignored
    ensures closes == 1 && log == [BookingRequestSent] && emptied && ready
  {
    AcceptedIsNotEmpty(name, phone);
    var form := new BookingFormModal();
    form.EditName(name);
    form.EditPhone(phone);
    form.EditEmail(email);
    form.EditMessage(message);
    first := form.Submit(true);
    during := form.Submit(true);
    form.SubmitResolves();
    onPanel := form.Submit(true);
    form.ResetFires();
    closes, log := form.closeRequests, form.notices;
    emptied, ready := form.FieldsEmpty(), form.CanSubmit(true);
  }
}
