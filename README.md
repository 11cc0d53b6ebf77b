# Clinic landing page: lead forms, booking dialog and testimonial carousel

This project models the parts of a dental clinic's landing page that have
behaviour worth stating. Everything else on the page is static markup and
animation.

- **Validation** (`validation.dfy`). Both lead forms run the same checks
  before they submit. The name and the phone are required, and a field that
  is blank after `trim()` counts as missing. The phone, with every `\s`
  character removed, must match `^[6-9]\d{9}$`. The required-field check
  runs first. JavaScript's `trim` and `\s` are modelled over the fixed set
  of characters ECMAScript defines for them. The regular expression is read
  off piece by piece and proved equal to its closed form: ten ASCII digits,
  the first 6 to 9.
- **Browser checks** (`form_constraints.dfy`). Neither form sets
  `novalidate`, so the browser checks the controls before it runs the submit
  handler. The name and phone inputs are `required`: an empty value stops the
  press. The email input is `type="email"`: a non-empty value must, after the
  browser strips its newlines and surrounding ASCII whitespace, be a "valid
  e-mail address" as the HTML Living Standard defines it (section
  4.10.5.1.5). A press the browser stops runs no handler and raises no toast.
  So the handler's "missing fields" toast is reached only for a field that
  holds nothing but white space.
- **Notices** (`notices.dfy`). The toasts are modelled as an append-only log
  of kinds.
- **Inline lead form** (`lead_capture.dfy`, class `LeadCaptureForm`). The
  lifecycle is Idle → Submitting → Success. Success is final: nothing clears
  `isSuccess`, and the thank-you panel then replaces the form. The
  simulated 1500 ms request is an explicit event, `SubmitResolves`.
- **Booking dialog form** (`booking_form.dfy`, class `BookingFormModal`).
  It uses the same validation and the lifecycle Idle → Submitting → Success
  → Idle. The 2000 ms reset is an explicit event, `ResetFires`: it empties
  all four fields and calls `onClose` once. The form stays mounted while the
  dialog is closed, so its state and its timers outlive a close.
- **Booking dialog controller** (`booking_modal.dfy`).
  `BookingModalProvider` holds `isOpen` and `hasAutoOpened`, plus the
  one-shot auto-open timer. `SessionStorage` holds the
  `booking_modal_interacted` key, which outlives any one provider in the
  tab. A ghost counter in it proves that the dialog opens by itself at most
  once per session, however often the provider is remounted.
- **Page wiring** (`page.dfy`). The page passes the controller's `isOpen`
  and `closeModal` to the always-mounted form.
- **Testimonial carousel** (`testimonials.dfy`). This covers the index
  arithmetic over the five reviews, the dot-click direction and the slide
  offsets as functions. The class `Carousel` has `goToPrevious`, `goToNext`,
  the autoplay tick and the dot click.

Timers and `await` become events whose methods require that the timer is
scheduled. A gesture on a form that is hidden, or whose button is disabled,
is modelled as an ignored press (`SubmitOutcome.Ignored`). A press the
browser's checks stop is `SubmitOutcome.Blocked`.

## Model

| member | source | states |
|---|---|---|
| Validation.Trim | src/components/sections/LeadCaptureSection.tsx:26 | `s.trim()`: `trimStart` then `trimEnd`; its meaning is stated by `TrimSpec` and `TrimIsEmptyIff` |
| Validation.IsBlank | src/components/sections/LeadCaptureSection.tsx:26 | `!s.trim()`: the field counts as not filled in; `TrimIsEmptyIff` states it is exactly "all white space" |
| Validation.StripWhitespace | src/components/sections/LeadCaptureSection.tsx:36 | `s.replace(/\s/g, "")`; its meaning is stated by `StripSpec`, `StripKeepsCleanString` and `StripDistributes` |
| Validation.MatchesMobilePattern | src/components/sections/LeadCaptureSection.tsx:35-36 | `/^[6-9]\d{9}$/.test`, read off the pattern; `MobilePatternIff` gives its closed form |
| Validation.Validate | src/components/sections/LeadCaptureSection.tsx:26-43 | the handler's two checks in their order, shared by both forms (src/components/BookingFormModal.tsx:28-46); characterised by `MissingFieldsIff`, `InvalidPhoneIff` and `AcceptedIff` |
| Validation.TrimStartSpec | src/components/sections/LeadCaptureSection.tsx:26 | the left half of `trim()` returns a suffix of its input, drops only white space, and the result does not start with white space |
| Validation.TrimEndSpec | src/components/sections/LeadCaptureSection.tsx:26 | the right half of `trim()` returns a prefix of its input, drops only white space, and the result does not end with white space |
| Validation.TrimSpec | src/components/sections/LeadCaptureSection.tsx:26 | `trim()` is no longer than its input, and a non-empty result neither starts nor ends with white space |
| Validation.TrimIsEmptyIff | src/components/sections/LeadCaptureSection.tsx:26 | `!s.trim()` holds exactly when `s` is nothing but white space (both directions) |
| Validation.StripSpec | src/components/sections/LeadCaptureSection.tsx:36 | `replace(/\s/g, "")` leaves no white space and never lengthens the string |
| Validation.StripDistributes | src/components/sections/LeadCaptureSection.tsx:36 | removing white space from a concatenation is the concatenation of the parts with white space removed |
| Validation.StripKeepsCleanString | src/components/sections/LeadCaptureSection.tsx:36 | a string without white space is returned unchanged |
| Validation.StripIdempotent | src/components/sections/LeadCaptureSection.tsx:36 | removing white space twice equals removing it once |
| Validation.StripIsEmptyIff | src/components/sections/LeadCaptureSection.tsx:36 | nothing is left after removing white space exactly when the string was all white space |
| Validation.StripIgnoresInsertedWhitespace | src/components/sections/LeadCaptureSection.tsx:36 | white space inserted anywhere is removed again: the stripped phone is the same |
| Validation.DigitsToEndIff | src/components/sections/LeadCaptureSection.tsx:35 | `\d{n}$` matches exactly the strings of n ASCII digits |
| Validation.MobilePatternIff | src/components/sections/LeadCaptureSection.tsx:35-36 | `^[6-9]\d{9}$` matches exactly the ten-digit strings whose first digit is 6, 7, 8 or 9 |
| Validation.MissingFieldsIff | src/components/sections/LeadCaptureSection.tsx:26-33 | the submission is refused as "missing fields" exactly when the name or the phone is all white space |
| Validation.BlankPhoneReportsMissingFields | src/components/sections/LeadCaptureSection.tsx:26-43 | a white-space-only phone would fail the pattern too, yet the required-field check takes precedence |
| Validation.InvalidPhoneIff | src/components/sections/LeadCaptureSection.tsx:35-43 | the phone is refused as malformed exactly when both fields are filled and the stripped phone is not a ten-digit number starting 6 to 9 |
| Validation.AcceptedIff | src/components/sections/LeadCaptureSection.tsx:26-45 | a submission goes ahead exactly when the name is filled and the stripped phone is a ten-digit number starting 6 to 9 |
| Validation.VerdictDependsOnStrippedPhone | src/components/sections/LeadCaptureSection.tsx:26-36 | the verdict depends on the phone only through its stripped form |
| Validation.AllWhitespaceIgnoresInsertion | src/components/sections/LeadCaptureSection.tsx:26 | inserting white space does not make a field blank or non-blank |
| Validation.VerdictIgnoresInsertedWhitespace | src/components/sections/LeadCaptureSection.tsx:36 | spaces typed into the phone never change the verdict (e.g. "98765 43210" is accepted like "9876543210") |
| Validation.MobileNumberAccepted | src/components/sections/LeadCaptureSection.tsx:26-45 | a filled-in name with a well-formed number typed without spaces is accepted |
| Validation.AcceptedExample | src/components/sections/LeadCaptureSection.tsx:26-45 | "Priya" with "9876543210" is accepted |
| Validation.MissingFieldsExamples | src/components/sections/LeadCaptureSection.tsx:26-33 | an empty name, or a phone of three spaces, is refused as missing fields |
| Validation.LeadingDigitExample | src/components/sections/LeadCaptureSection.tsx:35-43 | "1234567890" is refused as an invalid phone (leading digit 1) |
| Validation.ShortNumberExample | src/components/sections/LeadCaptureSection.tsx:35-43 | a nine-digit number is refused as an invalid phone |
| FormConstraints.RequiredSatisfied | src/components/sections/LeadCaptureSection.tsx:181-193 | `required` on the name and phone inputs (the same at src/components/BookingFormModal.tsx:170-182): the value must not be empty, white space counting as a value; with `AcceptedIsNotEmpty` and `MissingFieldsBehindBrowser` relating it to the handler's check |
| FormConstraints.SanitizeEmail | src/components/sections/LeadCaptureSection.tsx:200 | the value sanitization of `type="email"` (the same at src/components/BookingFormModal.tsx:189); characterised by `SanitizeEmailSpec`, `SanitizeEmailSlice`, `SanitizedKept` and `SanitizeIdempotent` |
| FormConstraints.IsValidEmailAddress | src/components/sections/LeadCaptureSection.tsx:200 | the standard's "valid e-mail address" pattern read off at the first "@" (the same at src/components/BookingFormModal.tsx:189); `ValidEmailIff` shows no match is lost, and `LabelsJoin`/`JoinLabelsDomain` characterise the domain |
| FormConstraints.EmailSatisfied | src/components/sections/LeadCaptureSection.tsx:200 | the email input passes when it is empty or its sanitized value is a valid address (the same at src/components/BookingFormModal.tsx:189); `ValidAddressPasses` and `EmailExamples` state both ways |
| FormConstraints.LeadFormSubmittable | src/components/sections/LeadCaptureSection.tsx:172-234 | the browser dispatches `submit` exactly when name and phone are non-empty and the email passes (the same form at src/components/BookingFormModal.tsx:153-234); both `Submit` contracts branch on it, and `MissingFieldsBehindBrowser` relates it to `Validate` |
| FormConstraints.FirstIndexUnique | src/components/sections/LeadCaptureSection.tsx:200 | a position holding the character with none before it is the one `FirstIndex` returns |
| FormConstraints.FirstIndex | src/components/sections/LeadCaptureSection.tsx:200 | the position returned holds the character sought and no earlier position does (the same control at src/components/BookingFormModal.tsx:189) |
| FormConstraints.StripNewlinesSpec | src/components/sections/LeadCaptureSection.tsx:200 | stripping newlines leaves none, and keeps a value without them (the same control at src/components/BookingFormModal.tsx:189) |
| FormConstraints.TrimAsciiStartSpec | src/components/sections/LeadCaptureSection.tsx:200 | trimming the start leaves a suffix, drops only ASCII whitespace, and the suffix does not start with ASCII whitespace (the same control at src/components/BookingFormModal.tsx:189) |
| FormConstraints.TrimAsciiEndSpec | src/components/sections/LeadCaptureSection.tsx:200 | trimming the end leaves a prefix, drops only ASCII whitespace, and the prefix does not end with ASCII whitespace (the same control at src/components/BookingFormModal.tsx:189) |
| FormConstraints.TrimAsciiEndKeepsStart | src/components/sections/LeadCaptureSection.tsx:200 | trimming the end of a value keeps its start free of ASCII whitespace (the same control at src/components/BookingFormModal.tsx:189) |
| FormConstraints.SanitizeEmailSpec | src/components/sections/LeadCaptureSection.tsx:200 | the email field's sanitized value has no newline and no ASCII whitespace at either end (the same control at src/components/BookingFormModal.tsx:189) |
| FormConstraints.SanitizeEmailSlice | src/components/sections/LeadCaptureSection.tsx:200 | sanitization returns a slice of the newline-free value, with only ASCII whitespace cut off before and after it (the same control at src/components/BookingFormModal.tsx:189) |
| FormConstraints.SanitizedKept | src/components/sections/LeadCaptureSection.tsx:200 | a value already in that form is kept as it is (the same control at src/components/BookingFormModal.tsx:189) |
| FormConstraints.SanitizeIdempotent | src/components/sections/LeadCaptureSection.tsx:200 | sanitizing twice is sanitizing once (the same control at src/components/BookingFormModal.tsx:189) |
| FormConstraints.AtAfterLocalPartIsFirst | src/components/sections/LeadCaptureSection.tsx:200 | an "@" right after a local part is the first "@" of the address (the same control at src/components/BookingFormModal.tsx:189) |
| FormConstraints.ValidEmailIff | src/components/sections/LeadCaptureSection.tsx:200 | a value is a valid e-mail address exactly when it splits at some "@" into a local part and a domain, so taking the first "@" loses no match (the same control at src/components/BookingFormModal.tsx:189) |
| FormConstraints.Labels | src/components/sections/LeadCaptureSection.tsx:200 | a domain has at least one label (the same control at src/components/BookingFormModal.tsx:189) |
| FormConstraints.LabelsJoin | src/components/sections/LeadCaptureSection.tsx:200 | a domain is its labels joined with dots, and each is a valid label (the same control at src/components/BookingFormModal.tsx:189) |
| FormConstraints.SplitAfterLabel | src/components/sections/LeadCaptureSection.tsx:200 | in a label, a dot and a rest, the first dot is the one after the label (the same control at src/components/BookingFormModal.tsx:189) |
| FormConstraints.JoinLabelsDomain | src/components/sections/LeadCaptureSection.tsx:200 | valid labels joined with dots form a domain whose labels they are (the inverse of `LabelsJoin`) (the same control at src/components/BookingFormModal.tsx:189) |
| FormConstraints.DomainChars | src/components/sections/LeadCaptureSection.tsx:200 | a domain holds only letters, digits, hyphens and dots (the same control at src/components/BookingFormModal.tsx:189) |
| FormConstraints.ValidAddressPasses | src/components/sections/LeadCaptureSection.tsx:200 | a valid address holds no white space, so the email field accepts it as typed (the same control at src/components/BookingFormModal.tsx:189) |
| FormConstraints.AcceptedIsNotEmpty | src/components/sections/LeadCaptureSection.tsx:181-193 | a submission the handler accepts has a non-empty name and phone, so `required` never stops it (the same controls at src/components/BookingFormModal.tsx:170-182) |
| FormConstraints.MissingFieldsBehindBrowser | src/components/sections/LeadCaptureSection.tsx:26-33 | once the browser lets a press through, the "missing fields" toast comes exactly from a non-empty field of white space only (the same check at src/components/BookingFormModal.tsx:27-34) |
| FormConstraints.EmailExamples | src/components/sections/LeadCaptureSection.tsx:200 | an empty email passes; "abc" does not (the same control at src/components/BookingFormModal.tsx:189) |
| FormConstraints.AddressExample | src/components/sections/LeadCaptureSection.tsx:200 | "priya@clinic.in" passes (the same control at src/components/BookingFormModal.tsx:189) |
| Notices.ErrorNotice | src/components/sections/LeadCaptureSection.tsx:27-42 | each refusal raises a destructive toast, and the "required fields" one exactly for missing fields |
| LeadCapture.LeadCaptureForm.constructor | src/components/sections/LeadCaptureSection.tsx:15-21 | the form starts with empty fields, not submitting, not succeeded, no toasts |
| LeadCapture.LeadCaptureForm.EditName | src/components/sections/LeadCaptureSection.tsx:179 | the name input sets the name and nothing else |
| LeadCapture.LeadCaptureForm.EditPhone | src/components/sections/LeadCaptureSection.tsx:191 | the phone input sets the phone and nothing else |
| LeadCapture.LeadCaptureForm.EditEmail | src/components/sections/LeadCaptureSection.tsx:203 | the email input sets the email and nothing else |
| LeadCapture.LeadCaptureForm.CanSubmit | src/components/sections/LeadCaptureSection.tsx:144-212 | the form, not the thank-you panel, is shown (line 144) and its button is enabled (line 212); `Submit` ignores every press when it is false |
| LeadCapture.LeadCaptureForm.Submit | src/components/sections/LeadCaptureSection.tsx:23-45 | a press on a hidden or disabled form changes nothing; one the browser stops (empty name or phone, malformed email) changes nothing and raises no toast; a refused one appends exactly one error toast and changes no field or flag; an accepted one sets `isSubmitting` and starts the request; fields are never changed |
| LeadCapture.LeadCaptureForm.SubmitResolves | src/components/sections/LeadCaptureSection.tsx:46-53 | the response ends with `isSubmitting` false and `isSuccess` true, one "Thank you!" toast, fields kept; the invariant keeps the two flags exclusive and the success toast count equal to `isSuccess` |
| LeadCapture.SingleSubmissionPerMount | src/components/sections/LeadCaptureSection.tsx:144-212 | a second press during the request and a press after success are both ignored, so one mount raises exactly one success toast |
| LeadCapture.BrowserChecksComeFirst | src/components/sections/LeadCaptureSection.tsx:172-200 | with only the phone typed the browser stops the press and no toast appears; a name of spaces reaches the handler and is refused as missing; a malformed email stops a press the handler would accept |
| BookingForm.BookingFormModal.constructor | src/components/BookingFormModal.tsx:15-22 | the form starts with four empty fields, both flags false, nothing scheduled |
| BookingForm.BookingFormModal.EditName | src/components/BookingFormModal.tsx:168 | the name input sets the name and nothing else |
| BookingForm.BookingFormModal.EditPhone | src/components/BookingFormModal.tsx:180 | the phone input sets the phone and nothing else |
| BookingForm.BookingFormModal.EditEmail | src/components/BookingFormModal.tsx:192 | the email input sets the email and nothing else |
| BookingForm.BookingFormModal.EditMessage | src/components/BookingFormModal.tsx:202 | the message input sets the message and nothing else |
| BookingForm.BookingFormModal.CanSubmit | src/components/BookingFormModal.tsx:83-212 | the dialog is open (line 83), the form, not the success panel, is shown (line 133), and its button is enabled (line 212); `Submit` ignores every press when it is false |
| BookingForm.BookingFormModal.Submit | src/components/BookingFormModal.tsx:24-48 | the same browser checks and validation as the inline form; a press the browser stops changes nothing; a refused press changes no field or flag, schedules no reset and does not call `onClose`; a press with the dialog closed, the success panel shown or the button disabled is ignored |
| BookingForm.BookingFormModal.SubmitResolves | src/components/BookingFormModal.tsx:51-62 | the response sets `isSuccess`, clears `isSubmitting`, raises one "Booking Request Sent!" toast and schedules the reset |
| BookingForm.BookingFormModal.ResetFires | src/components/BookingFormModal.tsx:62-66 | the reset clears `isSuccess`, empties all four fields and calls `onClose` exactly once; the invariant ties `onClose` calls and success toasts to completed submissions |
| BookingForm.SingleBookingCycle | src/components/BookingFormModal.tsx:24-67 | one booking runs Idle → Submitting → Success → Idle with no double submission, one toast, one `onClose`, and empty fields at the end |
| BookingModal.SessionStorage.constructor | src/hooks/useBookingModal.tsx:24-28 | a new session holds no `booking_modal_interacted` key and has seen no automatic opening |
| BookingModal.BookingModalProvider.constructor | src/hooks/useBookingModal.tsx:11-30 | mounting starts closed, not auto-opened, with the 6000 ms timer scheduled |
| BookingModal.BookingModalProvider.OpenModal | src/hooks/useBookingModal.tsx:15 | `openModal` sets `isOpen` and nothing else; the session key and `hasAutoOpened` are untouched (idempotent) |
| BookingModal.BookingModalProvider.CloseModal | src/hooks/useBookingModal.tsx:16 | `closeModal` clears `isOpen` and nothing else (idempotent) |
| BookingModal.BookingModalProvider.AutoOpenFires | src/hooks/useBookingModal.tsx:19-33 | with the key absent the timer opens the dialog and sets `hasAutoOpened` and the key; with the key present it changes nothing; no new timer is scheduled either way, and the key is never cleared |
| BookingModal.BookingModalProvider.Unmount | src/hooks/useBookingModal.tsx:32 | the effect's cleanup clears the pending timer |
| BookingModal.UseBookingModal | src/hooks/useBookingModal.tsx:42-48 | the hook throws exactly when there is no enclosing provider, and otherwise returns that provider's context |
| BookingModal.AutoOpenOncePerSession | src/hooks/useBookingModal.tsx:18-33 | after close, unmount and remount in one session, the second timer does not open the dialog; the session saw exactly one automatic opening |
| BookingModal.ManualUseDoesNotSuppressAutoOpen | src/hooks/useBookingModal.tsx:15-28 | opening and closing by hand does not set the key, so the timer still opens the dialog |
| Page.ResetClosesReopenedDialog | src/components/BookingFormModal.tsx:62-66 | a response after the dialog was closed does not reopen it, but the uncancelled reset closes a dialog the visitor reopened |
| Testimonials.Next | src/components/sections/TestimonialsSection.tsx:84 | the next index stays in range and wraps from the last review to the first |
| Testimonials.Previous | src/components/sections/TestimonialsSection.tsx:78 | the previous index stays in range and wraps from the first review to the last |
| Testimonials.DotDirection | src/components/sections/TestimonialsSection.tsx:232 | a dot click sets the direction to 1 or -1 |
| Testimonials.EnterOffset | src/components/sections/TestimonialsSection.tsx:90-94 | the incoming slide starts at +100 or -100 |
| Testimonials.ExitOffset | src/components/sections/TestimonialsSection.tsx:100-104 | the outgoing slide leaves to +100 or -100 |
| Testimonials.NextPreviousRoundTrip | src/components/sections/TestimonialsSection.tsx:75-85 | previous undoes next and next undoes previous |
| Testimonials.Advance | src/components/sections/TestimonialsSection.tsx:67-70 | the index after k autoplay ticks stays in range; `AdvanceIsModularSum` gives it as (i + k) % 5 and `FullCycle` as a cycle of five |
| Testimonials.AdvanceIsModularSum | src/components/sections/TestimonialsSection.tsx:67-70 | k forward steps add k to the index modulo 5 |
| Testimonials.FullCycle | src/components/sections/TestimonialsSection.tsx:67-70 | five forward steps return to the starting review |
| Testimonials.DotDirectionAndOffsets | src/components/sections/TestimonialsSection.tsx:230-234 | a dot click goes forward exactly for a dot to the right; clicking the current dot gives -1 |
| Testimonials.ExitMirrorsEnter | src/components/sections/TestimonialsSection.tsx:89-105 | the exit offset is the negation of the enter offset, which is +100 exactly for a positive direction |
| Testimonials.Carousel.constructor | src/components/sections/TestimonialsSection.tsx:60-62 | the carousel starts at review 0, autoplaying, direction forward |
| Testimonials.Carousel.GoToPrevious | src/components/sections/TestimonialsSection.tsx:75-79 | moves to the previous review, direction -1, autoplay off; the index stays in range |
| Testimonials.Carousel.GoToNext | src/components/sections/TestimonialsSection.tsx:81-85 | moves to the next review, direction 1, autoplay off; the index stays in range |
| Testimonials.Carousel.Tick | src/components/sections/TestimonialsSection.tsx:64-73 | runs only while autoplay is on; moves like `goToNext` but leaves autoplay on |
| Testimonials.Carousel.SelectDot | src/components/sections/TestimonialsSection.tsx:230-234 | jumps to the chosen review, sets the dot-click direction and switches autoplay off |
| Testimonials.Carousel.EnterX | src/components/sections/TestimonialsSection.tsx:90-94 | the incoming slide starts at +100 exactly when the direction is forward |
| Testimonials.CarouselWalk | src/components/sections/TestimonialsSection.tsx:64-85 | five ticks from the start return to review 0 with autoplay on; next then previous returns with autoplay off |

## Left out

- Real time is not modelled. The 1500, 2000, 5000 and 6000 ms delays become the events `SubmitResolves`, `ResetFires`, `Tick` and `AutoOpenFires`, and a method for such an event requires that its timer is pending.
- The `toast` display, `sessionStorage` as a general key-value store, and React rendering are not modelled. Rendering is kept only where it gates a handler: a hidden or disabled form ignores a press, and the browser's checks of `required` and `type="email"` stop a press before the handler. A response that arrives after unmount is not modelled either.
- The body-scroll lock while the dialog is open (`src/components/BookingFormModal.tsx:70-79`) is a DOM style side effect and is not modelled.
- Whitespace is the fixed character set that ECMAScript gives `trim` and `\s`, with the space separators of Unicode category Zs as of Unicode 6.3 (which moved U+180E out of Zs). Strings are sequences of code points, not UTF-16 code units. This gives the same verdicts: no character outside the Basic Multilingual Plane is white space or an ASCII digit.
- Page.ResetClosesReopenedDialog: the reset's `onClose` call is the explicit `closeModal` call that follows `ResetFires`. The form only counts its `onClose` calls (`closeRequests`), because the callback is a prop.
- Testimonials.Carousel.Tick: requires autoplay. The interval exists only while `isAutoPlaying` is true (`src/components/sections/TestimonialsSection.tsx:64-73`), so a tick with autoplay off cannot happen.
- The browser's value sanitization of the text and tel inputs (which strips newlines) is not applied: typing cannot enter a newline into them, so the state holds the value the browser checks.
- The browser's message for a control that fails its check, and the focus it moves to that control, are not modelled; only that the handler does not run.
- The review texts, names and other contents of the five testimonials are not modelled; only their number is.
- The other sections are presentational markup and are not part of this model. That covers the hero, services, gallery, contact, CTA, footer, header scroll listener and mobile menu, animated counters (floating-point easing), theme toggle, logo and mobile CTA.
- The model follows the code:
  - The inline form never resets after success; only the dialog form does.
  - No notification is raised on entering Submitting.
  - The dialog form's reset timer is never cancelled.
  - The auto-open timer is cleared on unmount (`src/hooks/useBookingModal.tsx:32`).
