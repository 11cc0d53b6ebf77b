/** The transient notifications ("toasts") the two lead forms raise. The
    forms only ever append to a log of these; how they are displayed is not
    part of the model. */
module Notices {
  import opened Validation

  datatype Notice =
    | RequiredFieldsMissing  // "Please fill required fields"
    | InvalidPhone           // "Invalid phone number"
    | CallbackConfirmed      // "Thank you!" (inline form)
    | BookingRequestSent     // "Booking Request Sent!" (modal form)

  /** Raised with the "destructive" variant, that is, as an error. */
  predicate IsDestructive(n: Notice) {
    n == RequiredFieldsMissing || n == InvalidPhone
  }

  /** The notification each form raises for a refused submission; both forms
      use the same two, word for word. */
  function ErrorNotice(e: ValidationError): (n: Notice)
    ensures IsDestructive(n)
    ensures n == RequiredFieldsMissing <==> e == MissingRequiredFields
  {
    match e
    case MissingRequiredFields => RequiredFieldsMissing
    case InvalidPhoneNumber => InvalidPhone
  }
}
