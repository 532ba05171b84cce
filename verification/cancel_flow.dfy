/** What the booked-flights page and the cancel handler promise together:
    the page offers Cancel only on confirmed bookings, so a cancel issued
    from an up-to-date page frees exactly the seat the booking held. */
module CancelFlow {
  import opened BookingCore
  import opened BookedFlights

  /** The card `v` shows the stored booking of the same id with its
      current status. */
  ghost predicate Reflects(v: BookingView, s: State)
  {
    && v.id in s.bookings
    && (v.status == "confirmed" <==> s.bookings[v.id].status == Confirmed)
  }

  /** Cancelling from a card that offers Cancel and shows the stored
      status conserves every flight's seats plus confirmed bookings.
      The premise `Reflects` is what the page does not guarantee: a second
      click before the first response hides the button, or a list revived
      by overlapping cancels (`BookedFlights.OverlappingCancelsReviveOffer`),
      sends a cancel for a booking already cancelled. */
  lemma OfferedCancelConserves(s: State, v: BookingView, fault: Fault, g: FlightId)
    requires Reflects(v, s) && OffersCancel(v)
    requires g in s.seats
    ensures g in CancelBooking(s, v.id, fault).post.seats
    ensures Tally(CancelBooking(s, v.id, fault).post, g) == Tally(s, g)
  {
    CancelConfirmedConserves(s, v.id, fault, g);
  }

  /** A double click on Cancel sends two requests for the same booking:
      both succeed, and the flight ends with one seat more than its
      capacity accounts for. */
  lemma DoubleClickOverCredits(s: State, v: BookingView)
    requires Reflects(v, s) && OffersCancel(v) && s.bookings[v.id].flight in s.seats
    ensures var f := s.bookings[v.id].flight;
      var once := CancelBooking(s, v.id, NoFault);
      var twice := CancelBooking(once.post, v.id, NoFault);
      && once.result.Ok? && twice.result.Ok?
      && f in twice.post.seats
      && Tally(twice.post, f) == Tally(s, f) + 1
  {
    var f := s.bookings[v.id].flight;
    var once := CancelBooking(s, v.id, NoFault);
    CancelConfirmedConserves(s, v.id, NoFault, f);
    RecancelOverCredits(once.post, v.id);
  }
}
