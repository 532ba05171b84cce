/** The seat-inventory booking core of the back end: the handlers of
    `POST /api/bookings` and `PUT /api/bookings/:id/cancel`.

    The two database tables are immutable maps, and each handler is one
    atomic transition from a state to a result and a new state. The
    store's transaction (BEGIN/COMMIT/ROLLBACK) and the `FOR UPDATE` row
    lock are what make a handler atomic in the running system; here that
    atomicity is the shape of the function: a failure returns the state
    it was given. */
module BookingCore {

  type FlightId = int
  type BookingId = int
  type UserId = int

  datatype Status = Confirmed | Cancelled

  /** A row of the `bookings` table. */
  datatype Booking = Booking(user: UserId, flight: FlightId, status: Status)

  /** The `seats` column of the `flights` table, the `bookings` table, and
      the next value of the bookings' id sequence. */
  datatype State = State(seats: map<FlightId, int>, bookings: map<BookingId, Booking>, nextId: BookingId)

  /** The handlers' error responses: 404, 400 and 500. */
  datatype Error = NotFound | NoCapacity | TransientFailure

  datatype Outcome<T> = Ok(value: T) | Fail(error: Error)

  /** What a handler answers together with the state it leaves behind. */
  datatype Transition<T> = Transition(result: Outcome<T>, post: State)

  /** The store queries of the two transactions, in protocol order:
      create runs Begin, LockFlight, InsertBooking, DecrementSeats, Commit;
      cancel runs Begin, UpdateStatus, IncrementSeats, Commit. */
  datatype Step = Begin | LockFlight | InsertBooking | DecrementSeats | UpdateStatus | IncrementSeats | Commit

  /** The store's behaviour during one call: every query succeeds, or the
      query of the named step throws. */
  datatype Fault = NoFault | FailAt(step: Step)

  /** The status code of an error response: 404 and 400 are the caller's
      mistakes, 500 is the server's. */
  function ErrorStatus(e: Error): (code: int)
    ensures 400 <= code < 600
    ensures code < 500 <==> e != TransientFailure
    ensures code == 404 <==> e == NotFound
    ensures code == 400 <==> e == NoCapacity
    ensures code == 500 <==> e == TransientFailure
  {
    match e
    case NotFound => 404
    case NoCapacity => 400
    case TransientFailure => 500
  }

  /** The status code `POST /api/bookings` answers with. */
  function CreateStatus(r: Outcome<BookingId>): (code: int)
    ensures 200 <= code < 300 <==> r.Ok?
    ensures r.Fail? ==> code == ErrorStatus(r.error)
  {
    if r.Ok? then 201 else ErrorStatus(r.error)
  }

  /** The status code `PUT /api/bookings/:id/cancel` answers with
      (`res.json` sends 200). */
  function CancelStatus(r: Outcome<()>): (code: int)
    ensures 200 <= code < 300 <==> r.Ok?
    ensures r.Fail? ==> code == ErrorStatus(r.error)
  {
    if r.Ok? then 200 else ErrorStatus(r.error)
  }

  /** The well-formedness the store keeps: no flight has a negative seat
      count, and every booking id was drawn from the sequence. */
  ghost predicate Valid(s: State)
  {
    && (forall f :: f in s.seats ==> s.seats[f] >= 0)
    && (forall b :: b in s.bookings ==> b < s.nextId)
  }

  /** The ids of the confirmed bookings of flight `f`. */
  function ConfirmedOf(bookings: map<BookingId, Booking>, f: FlightId): set<BookingId>
  {
    set b | b in bookings && bookings[b].flight == f && bookings[b].status == Confirmed
  }

  /** Remaining seats plus confirmed bookings of a flight: its capacity,
      which the booking core exists to conserve. */
  function Tally(s: State, f: FlightId): int
    requires f in s.seats
  {
    s.seats[f] + |ConfirmedOf(s.bookings, f)|
  }

  /** Any fault the transaction reaches aborts it: the store rolls back and
      the handler answers 500 with the state as it was. */
  function Abort<T>(s: State): Transition<T>
  {
    Transition(Fail(TransientFailure), s)
  }

  /** POST /api/bookings with body `{user_id: user, flight_id: flight}`. */
  function CreateBooking(s: State, user: UserId, flight: FlightId, fault: Fault): (t: Transition<BookingId>)
    // a failure leaves everything as it was
    ensures t.result.Fail? ==> t.post == s
    // seats are only taken after a positive count was seen, so none goes negative
    ensures Valid(s) ==> Valid(t.post)
    ensures t.result == Fail(NotFound) <==> flight !in s.seats && fault !in {FailAt(Begin), FailAt(LockFlight)}
    ensures t.result == Fail(NoCapacity) <==>
              flight in s.seats && s.seats[flight] <= 0 && fault !in {FailAt(Begin), FailAt(LockFlight)}
    // a present flight with a free seat is booked unless one of its queries throws ...
    ensures t.result.Ok? <==>
              && flight in s.seats && s.seats[flight] > 0
              && fault !in {FailAt(Begin), FailAt(LockFlight), FailAt(InsertBooking), FailAt(DecrementSeats), FailAt(Commit)}
    // ... and a query that throws rolls the transaction back and answers 500
    ensures t.result == Fail(TransientFailure) <==>
              || fault in {FailAt(Begin), FailAt(LockFlight)}
              || (flight in s.seats && s.seats[flight] > 0
                  && fault in {FailAt(InsertBooking), FailAt(DecrementSeats), FailAt(Commit)})
    // a success stores one new confirmed booking under a fresh id ...
    ensures t.result.Ok? ==>
              && flight in s.seats && s.seats[flight] > 0
              && t.post.bookings.Keys == s.bookings.Keys + {t.result.value}
              && t.post.bookings[t.result.value] == Booking(user, flight, Confirmed)
              && (Valid(s) ==> t.result.value !in s.bookings)
    // ... takes exactly one seat of that flight ...
    ensures t.result.Ok? ==>
              t.post.seats.Keys == s.seats.Keys && t.post.seats[flight] == s.seats[flight] - 1
    // ... and touches no other flight or booking
    ensures t.result.Ok? ==>
              && (forall g :: g in s.seats && g != flight ==> t.post.seats[g] == s.seats[g])
              && (forall b :: b in s.bookings && b != t.result.value ==> t.post.bookings[b] == s.bookings[b])
  {
    if fault in {FailAt(Begin), FailAt(LockFlight)} then Abort(s)
    else if flight !in s.seats then Transition(Fail(NotFound), s)
    else if s.seats[flight] <= 0 then Transition(Fail(NoCapacity), s)
    else
      // the transaction's own view of the store, visible to nobody until Commit
      var id := s.nextId;
      var inserted := s.(bookings := s.bookings[id := Booking(user, flight, Confirmed)], nextId := s.nextId + 1);
      if fault == FailAt(InsertBooking) then Abort(s)
      else
        var decremented := inserted.(seats := inserted.seats[flight := inserted.seats[flight] - 1]);
        // a COMMIT that throws is taken as not applied; one whose reply was
        // lost may in fact have taken effect
        if fault in {FailAt(DecrementSeats), FailAt(Commit)} then Abort(s)
        else Transition(Ok(id), decremented)
  }

  /** PUT /api/bookings/:id/cancel. The status is overwritten whatever it
      was, and the referenced flight gets a seat back. */
  function CancelBooking(s: State, id: BookingId, fault: Fault): (t: Transition<()>)
    ensures t.result.Fail? ==> t.post == s
    ensures Valid(s) ==> Valid(t.post)
    ensures t.result == Fail(NotFound) <==> id !in s.bookings && fault !in {FailAt(Begin), FailAt(UpdateStatus)}
    ensures t.result.Fail? ==> t.result.error != NoCapacity
    ensures t.result.Ok? <==> id in s.bookings && fault !in {FailAt(Begin), FailAt(UpdateStatus), FailAt(IncrementSeats), FailAt(Commit)}
    ensures t.result == Fail(TransientFailure) <==>
              || fault in {FailAt(Begin), FailAt(UpdateStatus)}
              || (id in s.bookings && fault in {FailAt(IncrementSeats), FailAt(Commit)})
    // a success marks the booking cancelled and keeps its owner and flight ...
    ensures t.result.Ok? ==>
              && t.post.bookings.Keys == s.bookings.Keys
              && t.post.bookings[id] == Booking(s.bookings[id].user, s.bookings[id].flight, Cancelled)
              && (forall b :: b in s.bookings && b != id ==> t.post.bookings[b] == s.bookings[b])
              && t.post.nextId == s.nextId
    // ... and gives that flight one seat back, touching no other flight
    ensures t.result.Ok? ==>
              && t.post.seats.Keys == s.seats.Keys
              && (forall g :: g in s.seats && g != s.bookings[id].flight ==> t.post.seats[g] == s.seats[g])
              && (s.bookings[id].flight in s.seats ==>
                    t.post.seats[s.bookings[id].flight] == s.seats[s.bookings[id].flight] + 1)
  {
    if fault in {FailAt(Begin), FailAt(UpdateStatus)} then Abort(s)
    else if id !in s.bookings then Transition(Fail(NotFound), s)
    else
      var f := s.bookings[id].flight;
      var updated := s.(bookings := s.bookings[id := s.bookings[id].(status := Cancelled)]);
      if fault == FailAt(IncrementSeats) then Abort(s)
      else
        // UPDATE ... WHERE id = f changes no row when the flight is gone
        var incremented := if f in updated.seats then updated.(seats := updated.seats[f := updated.seats[f] + 1]) else updated;
        // as in create, a throwing COMMIT is taken as not applied
        if fault == FailAt(Commit) then Abort(s)
        else Transition(Ok(()), incremented)
  }

  /** Booking `bk` is a confirmed booking of flight `g`. */
  predicate HoldsSeatOf(bk: Booking, g: FlightId)
  {
    bk.flight == g && bk.status == Confirmed
  }

  /** The confirmed bookings of `g` are those other than `id`, plus `id`
      itself when it holds a seat of `g`. */
  lemma ConfirmedSplit(bookings: map<BookingId, Booking>, id: BookingId, g: FlightId)
    requires id in bookings
    ensures id !in ConfirmedOf(bookings - {id}, g)
    ensures ConfirmedOf(bookings, g) == ConfirmedOf(bookings - {id}, g) + (if HoldsSeatOf(bookings[id], g) then {id} else {})
  {
  }

  /** Adding a confirmed booking of `f` under a fresh id adds one to the
      confirmed count of `f` and leaves every other flight's count alone. */
  lemma ConfirmedAfterInsert(bookings: map<BookingId, Booking>, id: BookingId, bk: Booking, g: FlightId)
    requires id !in bookings
    ensures |ConfirmedOf(bookings[id := bk], g)| == |ConfirmedOf(bookings, g)| + (if HoldsSeatOf(bk, g) then 1 else 0)
  {
    ConfirmedSplit(bookings[id := bk], id, g);
    assert bookings[id := bk] - {id} == bookings;
  }

  /** Overwriting an existing booking `id` with `bk` changes the confirmed
      count of `g` by what `id` contributes before and after. */
  lemma ConfirmedAfterUpdate(bookings: map<BookingId, Booking>, id: BookingId, bk: Booking, g: FlightId)
    requires id in bookings
    ensures |ConfirmedOf(bookings[id := bk], g)| + (if HoldsSeatOf(bookings[id], g) then 1 else 0)
            == |ConfirmedOf(bookings, g)| + (if HoldsSeatOf(bk, g) then 1 else 0)
  {
    ConfirmedSplit(bookings[id := bk], id, g);
    ConfirmedSplit(bookings, id, g);
    assert bookings[id := bk] - {id} == bookings - {id};
  }

  /** Conservation under create: whatever the outcome, every flight's
      seats plus confirmed bookings stays the same. */
  lemma CreateConserves(s: State, user: UserId, flight: FlightId, fault: Fault, g: FlightId)
    requires Valid(s) && g in s.seats
    ensures g in CreateBooking(s, user, flight, fault).post.seats
    ensures Tally(CreateBooking(s, user, flight, fault).post, g) == Tally(s, g)
  {
    var t := CreateBooking(s, user, flight, fault);
    if t.result.Ok? {
      ConfirmedAfterInsert(s.bookings, t.result.value, Booking(user, flight, Confirmed), g);
    }
  }

  /** Conservation under cancel of a confirmed booking: the seat it frees
      is the seat its confirmation held. */
  lemma CancelConfirmedConserves(s: State, id: BookingId, fault: Fault, g: FlightId)
    requires g in s.seats
    requires id in s.bookings ==> s.bookings[id].status == Confirmed
    ensures g in CancelBooking(s, id, fault).post.seats
    ensures Tally(CancelBooking(s, id, fault).post, g) == Tally(s, g)
  {
    var t := CancelBooking(s, id, fault);
    if t.result.Ok? {
      ConfirmedAfterUpdate(s.bookings, id, s.bookings[id].(status := Cancelled), g);
    }
  }

  /** The latent over-credit, as the handler is written: cancelling a
      booking that is already cancelled succeeds and hands its flight one
      more seat, so that flight's tally grows by one. */
  lemma RecancelOverCredits(s: State, id: BookingId)
    requires id in s.bookings && s.bookings[id].status == Cancelled
    requires s.bookings[id].flight in s.seats
    ensures CancelBooking(s, id, NoFault).result.Ok?
    ensures Tally(CancelBooking(s, id, NoFault).post, s.bookings[id].flight) == Tally(s, s.bookings[id].flight) + 1
  {
    ConfirmedAfterUpdate(s.bookings, id, s.bookings[id].(status := Cancelled), s.bookings[id].flight);
  }

  /** Cancelling the booking a create just made gives back the seat it took:
      the seat table is exactly as before the create, and the only trace
      left is the cancelled booking. */
  lemma CreateThenCancelRestoresSeats(s: State, user: UserId, flight: FlightId)
    requires Valid(s) && flight in s.seats && s.seats[flight] > 0
    ensures
      var c := CreateBooking(s, user, flight, NoFault);
      var d := CancelBooking(c.post, c.result.value, NoFault);
      && d.result.Ok?
      && d.post.seats == s.seats
      && d.post.bookings == s.bookings[c.result.value := Booking(user, flight, Cancelled)]
  {
    var c := CreateBooking(s, user, flight, NoFault);
    var d := CancelBooking(c.post, c.result.value, NoFault);
    assert d.post.seats.Keys == s.seats.Keys;
    assert d.post.bookings.Keys == s.bookings.Keys + {c.result.value};
  }

  /** What `POST /api/bookings` answers: 201 exactly when the flight exists,
      has a free seat and no query throws; 404 for an unknown flight and 400
      for a full one once the row lock is taken; 500 whenever a query it
      reaches throws. */
  lemma CreateAnswers(s: State, user: UserId, flight: FlightId, fault: Fault)
    ensures var code := CreateStatus(CreateBooking(s, user, flight, fault).result);
      && (code == 201 <==>
            && flight in s.seats && s.seats[flight] > 0
            && fault !in {FailAt(Begin), FailAt(LockFlight), FailAt(InsertBooking), FailAt(DecrementSeats), FailAt(Commit)})
      && (code == 404 <==> flight !in s.seats && fault !in {FailAt(Begin), FailAt(LockFlight)})
      && (code == 400 <==> flight in s.seats && s.seats[flight] <= 0 && fault !in {FailAt(Begin), FailAt(LockFlight)})
      && (code == 500 <==> CreateBooking(s, user, flight, fault).result == Fail(TransientFailure))
  {
  }

  /** What `PUT /api/bookings/:id/cancel` answers: 200 exactly when the
      booking exists and no query throws, 404 for an unknown booking, 500
      whenever a query it reaches throws; never 400. */
  lemma CancelAnswers(s: State, id: BookingId, fault: Fault)
    ensures var code := CancelStatus(CancelBooking(s, id, fault).result);
      && (code == 200 <==> id in s.bookings && fault !in {FailAt(Begin), FailAt(UpdateStatus), FailAt(IncrementSeats), FailAt(Commit)})
      && (code == 404 <==> id !in s.bookings && fault !in {FailAt(Begin), FailAt(UpdateStatus)})
      && (code == 500 <==> CancelBooking(s, id, fault).result == Fail(TransientFailure))
      && code != 400
  {
  }

  /** A COMMIT whose reply is lost: the client is told 500 as if nothing
      happened, but the store holds the committed cancel. Retrying the
      same request, as a 500 invites, cancels the booking a second time
      and over-credits its flight by one seat. */
  lemma LostCommitRetryOverCredits(s: State, id: BookingId)
    requires id in s.bookings && s.bookings[id].status == Confirmed
    requires s.bookings[id].flight in s.seats
    ensures CancelBooking(s, id, FailAt(Commit)).result == Fail(TransientFailure)
    ensures var committed := CancelBooking(s, id, NoFault).post;
      var retry := CancelBooking(committed, id, NoFault);
      && retry.result.Ok?
      && s.bookings[id].flight in retry.post.seats
      && Tally(retry.post, s.bookings[id].flight) == Tally(s, s.bookings[id].flight) + 1
  {
    var f := s.bookings[id].flight;
    var committed := CancelBooking(s, id, NoFault).post;
    CancelConfirmedConserves(s, id, NoFault, f);
    RecancelOverCredits(committed, id);
  }

  /** The last seat goes to exactly one of two back-to-back requests. */
  lemma LastSeatSoldOnce(s: State, u1: UserId, u2: UserId, flight: FlightId)
    requires flight in s.seats && s.seats[flight] == 1
    ensures
      var first := CreateBooking(s, u1, flight, NoFault);
      var second := CreateBooking(first.post, u2, flight, NoFault);
      && first.result.Ok?
      && second.result == Fail(NoCapacity)
      && second.post.seats[flight] == 0
  {
  }
}
