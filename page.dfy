/**
 * The page's navigation: the session remembers which salon's detail view
 * is open (`selected_salon_index`), or none while the catalogue is shown.
 * Each button is a transition on that state; "Confirm Booking" also writes
 * to the booking file.
 *
 * Which buttons exist depends on the state: "View Details" is shown only
 * while no salon is selected, "Confirm Booking" and "Back" only while one
 * is, so those are the preconditions of the handlers.
 */
module Page {
  import opened Wrappers
  import opened Text
  import opened Salons
  import opened Bookings
  import opened TimeSlots

  /** The message shown after "Confirm Booking". */
  datatype Feedback = NameRequired | Confirmed(salonName: string)

  class Session {
    /** `st.session_state["selected_salon_index"]`, `None` when the key is absent. */
    var selectedSalonIndex: Option<nat>

    /** A fresh session shows the catalogue. */
    constructor ()
      ensures selectedSalonIndex == None
    {
      selectedSalonIndex := None;
    }

    /** "View Details" on the card of salon `idx` opens its detail view. */
    method ViewDetails(idx: nat)
      requires selectedSalonIndex == None
      requires idx < |SalonsData()|
      modifies this
      ensures selectedSalonIndex == Some(idx)
    {
      selectedSalonIndex := Some(idx);
    }

    /**
     * "Confirm Booking" with the form's name, service, date and slot. A name
     * that is blank after stripping is refused: nothing is written and the
     * detail view stays open. Otherwise exactly one booking, carrying the
     * name as typed and the selected salon's name, is appended to the file
     * and the view returns to the catalogue.
     */
    method ConfirmBooking(store: BookingFile, customer: string, service: string, date: string, time: string)
        returns (feedback: Feedback)
      requires selectedSalonIndex.Some? && selectedSalonIndex.value < |SalonsData()|
      modifies this, store
      ensures IsBlank(customer) ==>
        feedback == NameRequired &&
        selectedSalonIndex == old(selectedSalonIndex) &&
        store.contents == old(store.contents)
      ensures !IsBlank(customer) ==>
        var salonName := SalonsData()[old(selectedSalonIndex).value].name;
        feedback == Confirmed(salonName) &&
        selectedSalonIndex == None &&
        store.contents == Some(LoadBookings(old(store.contents)).rows + [Booking(customer, salonName, service, date, time)])
    {
      var salon := SalonsData()[selectedSalonIndex.value];
      if Strip(customer) == "" {
        feedback := NameRequired;
      } else {
        store.SaveBooking(customer, salon.name, service, date, time);
        feedback := Confirmed(salon.name);
        selectedSalonIndex := None;
      }
    }

    /** "Back to Salons" closes the detail view and writes nothing. */
    method Back()
      requires selectedSalonIndex.Some?
      modifies this
      ensures selectedSalonIndex == None
    {
      selectedSalonIndex := None;
    }
  }

  /**
   * One visit from the catalogue: open salon `idx`, fill in the form with a
   * slot the page offers, and confirm. A non-blank name leaves the page on
   * the catalogue with the file grown by exactly that booking, whose time is
   * one of the opening-hours slots.
   */
  method BookFromCatalogue(session: Session, store: BookingFile, idx: nat,
                           customer: string, service: string, date: string, slot: nat)
      returns (feedback: Feedback)
    requires session.selectedSalonIndex == None
    requires idx < |SalonsData()|
    requires slot < 26
    modifies session, store
    ensures !IsBlank(customer) ==>
      feedback == Confirmed(SalonsData()[idx].name) &&
      session.selectedSalonIndex == None &&
      store.contents == Some(LoadBookings(old(store.contents)).rows +
        [Booking(customer, SalonsData()[idx].name, service, date, Label(TimeOf(8, 30) + DefaultInterval * slot))])
    ensures IsBlank(customer) ==>
      feedback == NameRequired &&
      session.selectedSalonIndex == Some(idx) &&
      store.contents == old(store.contents)
  {
    session.ViewDetails(idx);
    var slots := GenerateTimeSlots(TimeOf(8, 30), TimeOf(21, 0), DefaultInterval);
    OpeningHoursSlots();
    ParsedLabelIsLabel(slots[slot], TimeOf(8, 30) + DefaultInterval * slot);
    feedback := session.ConfirmBooking(store, customer, service, date, slots[slot]);
  }
}
