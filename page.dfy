/** The page shell's wiring of the dialog: the booking form is always
    mounted, is told whether the controller's dialog is open, and is given the
    controller's `closeModal` as its `onClose`. */
module Page {
  import opened Validation
  import BookingForm
  import opened BookingModal
  import opened FormConstraints

  /** A visitor submits, closes the dialog while the request is in flight,
      and opens it again before the reset fires. The late response does not
      reopen the dialog, but the reset, never cancelled, closes the dialog
      the visitor had opened again. */
  method ResetClosesReopenedDialog(name: string, phone: string)
    returns (openWhileResolving: bool, openBeforeReset: bool, openAfterReset: bool,
             emptied: bool)
    requires Validate(name, phone) == Accepted
    ensures !openWhileResolving && openBeforeReset && !openAfterReset && emptied
  {
    AcceptedIsNotEmpty(name, phone);
    EmailExamples();
    var session := new SessionStorage();
    var controller := new BookingModalProvider(session);
    var form := new BookingForm.BookingFormModal();
    controller.OpenModal();
    form.EditName(name);
    form.EditPhone(phone);
    var outcome := form.Submit(controller.isOpen);
    controller.CloseModal();
    form.SubmitResolves();
    openWhileResolving := controller.isOpen;
    controller.OpenModal();
    openBeforeReset := controller.isOpen;
    form.ResetFires();
    controller.CloseModal();  // the reset's call of onClose
    openAfterReset := controller.isOpen;
    emptied := form.FieldsEmpty();
  }
}
