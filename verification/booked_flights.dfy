/** The "Your Booked Flights" page: the list of the user's bookings, the
    Cancel button it offers, and the local update after a cancel request. */
module BookedFlights {

  /** A row of the user's bookings as the page receives it. */
  datatype BookingView = BookingView(id: int, status: string, departure: string, destination: string, date: string, price: real)

  /** The page state `handleCancelBooking` touches. */
  datatype Page = Page(bookings: seq<BookingView>, error: string)

  const CancelFailedMessage: string := "An error occurred while cancelling the booking. Please try again."

  /** The card of a booking shows a Cancel button only while it is confirmed. */
  predicate OffersCancel(b: BookingView)
  {
    b.status == "confirmed"
  }

  /** The list after `bookings.map(b => b.id === bookingId ? {...b, status: 'cancelled'} : b)`. */
  function MarkCancelled(bookings: seq<BookingView>, bookingId: int): (r: seq<BookingView>)
    ensures |r| == |bookings|
    ensures forall i :: 0 <= i < |r| && bookings[i].id == bookingId ==> r[i] == bookings[i].(status := "cancelled")
    ensures forall i :: 0 <= i < |r| && bookings[i].id != bookingId ==> r[i] == bookings[i]
  {
    if |bookings| == 0 then []
    else
      var b := bookings[0];
      var rest := MarkCancelled(bookings[1..], bookingId);
      var r := [if b.id == bookingId then b.(status := "cancelled") else b] + rest;
      assert forall i :: 1 <= i < |r| ==> r[i] == rest[i - 1] && bookings[i] == bookings[1..][i - 1];
      r
  }

  /** Marking a booking cancelled a second time changes nothing. */
  lemma MarkCancelledIdempotent(bookings: seq<BookingView>, bookingId: int)
    ensures MarkCancelled(MarkCancelled(bookings, bookingId), bookingId) == MarkCancelled(bookings, bookingId)
  {
  }

  /** After the update, no card of the cancelled booking offers Cancel,
      and every other card offers it exactly as before. */
  lemma MarkCancelledWithdrawsOffer(bookings: seq<BookingView>, bookingId: int, i: int)
    requires 0 <= i < |bookings|
    ensures OffersCancel(MarkCancelled(bookings, bookingId)[i]) <==>
              bookings[i].id != bookingId && OffersCancel(bookings[i])
  {
  }

  /** `handleCancelBooking(bookingId)` once the PUT request settled, on
      the current page. `ok` is false when the response was not ok or the
      request threw. `captured` is the booking list of the render that
      created the handler: the success path maps over that list, not over
      the current one. */
  function HandleCancelBooking(page: Page, captured: seq<BookingView>, bookingId: int, ok: bool): (p: Page)
    // success: the captured cards in their order, the cancelled one now says so
    ensures ok ==> p.error == page.error && |p.bookings| == |captured|
    ensures ok ==> forall i :: 0 <= i < |p.bookings| ==>
                      p.bookings[i] == if captured[i].id == bookingId then captured[i].(status := "cancelled")
                                       else captured[i]
    // failure: the list stays as it was and only the error is set
    ensures !ok ==> p.bookings == page.bookings && p.error == CancelFailedMessage
  {
    if ok then page.(bookings := MarkCancelled(captured, bookingId))
    else page.(error := CancelFailedMessage)
  }

  /** Two cancels started from the same render and both successful: the one
      that settles second maps over the list both captured, so the booking
      the first one cancelled shows "confirmed" again and offers Cancel
      again, although the back end has already cancelled it. */
  lemma OverlappingCancelsReviveOffer(page: Page, captured: seq<BookingView>, first: int, second: int, i: int)
    requires 0 <= i < |captured| && captured[i].id == first && first != second
    requires OffersCancel(captured[i])
    ensures var afterFirst := HandleCancelBooking(page, captured, first, true);
      && !OffersCancel(afterFirst.bookings[i])
      && OffersCancel(HandleCancelBooking(afterFirst, captured, second, true).bookings[i])
  {
  }
}
