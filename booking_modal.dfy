/** The page-wide controller of the booking dialog: whether it is open, an
    open and a close operation any section may call, and a one-shot timer
    (6000 ms after the provider mounts) that opens the dialog by itself, but
    only if the tab's session storage does not yet hold the key
    "booking_modal_interacted", which the timer then sets. Opening or closing
    by hand never touches that key. */
module BookingModal {

  /** The session storage of one browser tab, reduced to the one key the
      controller uses. It outlives any provider that is mounted and unmounted
      within the tab. */
  class SessionStorage {
    /** The key "booking_modal_interacted" is present. */
    var bookingModalInteracted: bool
    /** How many times the timer has opened the dialog in this session. */
    ghost var autoOpens: nat

    /** The key is set whenever the dialog has opened by itself, and that
        happened at most once. */
    ghost predicate Valid()
      reads this
    {
      autoOpens <= 1 && (autoOpens == 1 ==> bookingModalInteracted)
    }

    /** A new session: nothing stored. */
    constructor ()
      ensures Valid() && !bookingModalInteracted && autoOpens == 0
    {
      bookingModalInteracted := false;
      autoOpens := 0;
    }
  }

  class BookingModalProvider {
    var isOpen: bool
    var hasAutoOpened: bool
    /** The auto-open timer is scheduled and has neither fired nor been
        cleared. */
    var autoOpenTimerPending: bool
    const storage: SessionStorage

    /** Once the dialog has opened by itself, the key is set, that was the
        session's one automatic opening, and no further timer is scheduled. */
    ghost predicate Valid()
      reads this, storage
    {
      storage.Valid()
      && (hasAutoOpened ==> storage.bookingModalInteracted && storage.autoOpens == 1
                            && !autoOpenTimerPending)
    }

    /** Mounting the provider: closed, not auto-opened, and since
        `hasAutoOpened` is false the effect schedules the timer. */
    constructor (storage: SessionStorage)
      requires storage.Valid()
      ensures Valid() && this.storage == storage
      ensures !isOpen && !hasAutoOpened && autoOpenTimerPending
    {
      this.storage := storage;
      isOpen, hasAutoOpened, autoOpenTimerPending := false, false, true;
    }

    /** `openModal`: opens the dialog and changes nothing else; calling it on
        an open dialog changes nothing at all. */
    method OpenModal()
      requires Valid()
      modifies this`isOpen
      ensures Valid() && isOpen
    {
      isOpen := true;
    }

    /** `closeModal`: closes the dialog and changes nothing else; calling it on
        a closed dialog changes nothing at all. */
    method CloseModal()
      requires Valid()
      modifies this`isOpen
      ensures Valid() && !isOpen
    {
      isOpen := false;
    }

    /** The timer fires. With the key absent the dialog opens, `hasAutoOpened`
        and the key are set, and the effect, re-run for the new
        `hasAutoOpened`, schedules no new timer. With the key present nothing
        changes and, `hasAutoOpened` being unchanged, nothing is rescheduled. */
    method AutoOpenFires()
      requires Valid() && autoOpenTimerPending
      modifies this, storage
      ensures Valid() && !autoOpenTimerPending
      ensures storage.bookingModalInteracted
      ensures !old(storage.bookingModalInteracted) ==>
                isOpen && hasAutoOpened && storage.autoOpens == old(storage.autoOpens) + 1
      ensures old(storage.bookingModalInteracted) ==>
                isOpen == old(isOpen) && hasAutoOpened == old(hasAutoOpened)
                && storage.autoOpens == old(storage.autoOpens)
    {
      autoOpenTimerPending := false;
      if !storage.bookingModalInteracted {
        isOpen := true;
        hasAutoOpened := true;
        storage.bookingModalInteracted := true;
        storage.autoOpens := storage.autoOpens + 1;
      }
    }

    /** Unmounting the provider: the effect's cleanup clears the timer. */
    method Unmount()
      requires Valid()
      modifies this`autoOpenTimerPending
      ensures Valid() && !autoOpenTimerPending
    {
      autoOpenTimerPending := false;
    }
  }

  /** What `useBookingModal` gives a component. */
  datatype HookResult =
    | Context(provider: BookingModalProvider)
    | Thrown(message: string)

  /** `useBookingModal`: the enclosing provider's context, or an error thrown
      when the component is not inside a provider. */
  function UseBookingModal(enclosing: BookingModalProvider?): (r: HookResult)
    ensures r.Thrown? <==> enclosing == null
    ensures r.Context? ==> r.provider == enclosing
    ensures r.Thrown? ==> r.message == "useBookingModal must be used within a BookingModalProvider"
  {
    if enclosing == null then
      Thrown("useBookingModal must be used within a BookingModalProvider")
    else
      Context(enclosing)
  }

  /** A tab in which the provider is mounted, its timer fires, the visitor
      closes the dialog, the provider is unmounted and mounted again and the
      new timer fires: only the first timer opens the dialog, and the session
      has seen exactly one automatic opening. */
  method AutoOpenOncePerSession()
    returns (firstOpened: bool, secondOpened: bool, ghost autoOpens: nat)
    ensures firstOpened && !secondOpened && autoOpens == 1
  {
    var session := new SessionStorage();
    var provider := new BookingModalProvider(session);
    provider.AutoOpenFires();
    firstOpened := provider.isOpen;
    provider.CloseModal();
    provider.Unmount();
    var remounted := new BookingModalProvider(session);
    remounted.AutoOpenFires();
    secondOpened := remounted.isOpen;
    autoOpens := session.autoOpens;
  }

  /** A visitor who opens and closes the dialog by hand before the timer fires
      still sees it open by itself: manual use does not set the key. */
  method ManualUseDoesNotSuppressAutoOpen()
    returns (openedByTimer: bool)
    ensures openedByTimer
  {
    var session := new SessionStorage();
    var provider := new BookingModalProvider(session);
    provider.OpenModal();
    provider.CloseModal();
    provider.AutoOpenFires();
    openedByTimer := provider.isOpen;
  }
}
