/** Sequences of booking requests served one after the other. The row
    lock taken by create (and the row touched by cancel) orders the
    requests on one flight, so any interleaving of handlers is, as far as
    one flight is concerned, some sequence of atomic transitions. */
module BookingRuns {
  import opened BookingCore

  datatype Request =
    | CreateRequest(user: UserId, flight: FlightId, fault: Fault)
    | CancelRequest(id: BookingId, fault: Fault)

  datatype Response = Created(id: BookingId) | CancelledOk | Failed(error: Error)

  datatype Run = Run(responses: seq<Response>, final: State)

  /** One request, handled by its handler. */
  function Handle(s: State, req: Request): (r: (Response, State))
    ensures Valid(s) ==> Valid(r.1)
    ensures r.0.Failed? ==> r.1 == s
  {
    match req
    case CreateRequest(user, flight, fault) =>
      var t := CreateBooking(s, user, flight, fault);
      (if t.result.Ok? then Created(t.result.value) else Failed(t.result.error), t.post)
    case CancelRequest(id, fault) =>
      var t := CancelBooking(s, id, fault);
      (if t.result.Ok? then CancelledOk else Failed(t.result.error), t.post)
  }

  /** Serves the requests in order, each against the state the previous
      one left. */
  function Serve(s: State, reqs: seq<Request>): (r: Run)
    ensures |r.responses| == |reqs|
    ensures Valid(s) ==> Valid(r.final)
    ensures r.final.seats.Keys == s.seats.Keys
    decreases |reqs|
  {
    if |reqs| == 0 then Run([], s)
    else
      var (resp, next) := Handle(s, reqs[0]);
      var rest := Serve(next, reqs[1..]);
      Run([resp] + rest.responses, rest.final)
  }

  /** How many of the requests booked a seat on flight `f`. */
  function SeatsSold(reqs: seq<Request>, responses: seq<Response>, f: FlightId): nat
    requires |responses| == |reqs|
  {
    if |reqs| == 0 then 0
    else
      (if reqs[0].CreateRequest? && reqs[0].flight == f && responses[0].Created? then 1 else 0)
      + SeatsSold(reqs[1..], responses[1..], f)
  }

  predicate AllCreates(reqs: seq<Request>)
  {
    forall i :: 0 <= i < |reqs| ==> reqs[i].CreateRequest?
  }

  /** No oversell: out of any sequence of create requests, every seat sold
      on a flight came out of its seat count, so no more are sold than the
      flight had left when the sequence began. */
  lemma {:induction false} NoOversell(s: State, reqs: seq<Request>, f: FlightId)
    requires Valid(s) && f in s.seats && AllCreates(reqs)
    ensures SeatsSold(reqs, Serve(s, reqs).responses, f) + Serve(s, reqs).final.seats[f] == s.seats[f]
    ensures SeatsSold(reqs, Serve(s, reqs).responses, f) <= s.seats[f]
    decreases |reqs|
  {
    if |reqs| > 0 {
      var (resp, next) := Handle(s, reqs[0]);
      assert AllCreates(reqs[1..]) by {
        forall i | 0 <= i < |reqs[1..]| ensures reqs[1..][i].CreateRequest? {
          assert reqs[1..][i] == reqs[i + 1];
        }
      }
      NoOversell(next, reqs[1..], f);
      var r := Serve(s, reqs);
      assert r.responses[1..] == Serve(next, reqs[1..]).responses;
      assert r.responses[0] == resp;
    }
  }

  /** Every request books flight `f`, and no query of the store throws. */
  predicate CleanCreatesOn(reqs: seq<Request>, f: FlightId)
  {
    forall i :: 0 <= i < |reqs| ==> reqs[i].CreateRequest? && reqs[i].flight == f && reqs[i].fault == NoFault
  }

  /** Serving a non-empty run handles its first request, then the rest. */
  lemma ServeFirst(s: State, reqs: seq<Request>)
    requires |reqs| > 0
    ensures var rest := Serve(Handle(s, reqs[0]).1, reqs[1..]);
      && Serve(s, reqs).responses == [Handle(s, reqs[0]).0] + rest.responses
      && Serve(s, reqs).final == rest.final
  {
  }

  /** One clean create on `f`: it books a seat when one is left, and is
      refused for lack of seats, changing nothing, when none is. */
  lemma CleanCreateStep(s: State, req: Request, f: FlightId)
    requires Valid(s) && f in s.seats
    requires req.CreateRequest? && req.flight == f && req.fault == NoFault
    ensures Valid(Handle(s, req).1) && f in Handle(s, req).1.seats
    ensures s.seats[f] > 0 ==> Handle(s, req).0.Created? && Handle(s, req).1.seats[f] == s.seats[f] - 1
    ensures s.seats[f] <= 0 ==> Handle(s, req) == (Failed(NoCapacity), s)
  {
  }

  lemma CleanCreatesTail(reqs: seq<Request>, f: FlightId)
    requires |reqs| > 0 && CleanCreatesOn(reqs, f)
    ensures CleanCreatesOn(reqs[1..], f)
  {
    forall i | 0 <= i < |reqs[1..]|
      ensures reqs[1..][i].CreateRequest? && reqs[1..][i].flight == f && reqs[1..][i].fault == NoFault
    {
      assert reqs[1..][i] == reqs[i + 1];
    }
  }

  /** The `i`-th of a run of clean creates on `f` is booked exactly when
      fewer than `i + 1` requests came before the seats ran out. */
  lemma {:induction false} FirstComeAt(s: State, reqs: seq<Request>, f: FlightId, i: int)
    requires Valid(s) && f in s.seats && CleanCreatesOn(reqs, f) && 0 <= i < |reqs|
    ensures Serve(s, reqs).responses[i].Created? <==> i < s.seats[f]
    ensures s.seats[f] <= i ==> Serve(s, reqs).responses[i] == Failed(NoCapacity)
    decreases i
  {
    var next := Handle(s, reqs[0]).1;
    CleanCreateStep(s, reqs[0], f);
    ServeFirst(s, reqs);
    if i > 0 {
      CleanCreatesTail(reqs, f);
      FirstComeAt(next, reqs[1..], f, i - 1);
      assert Serve(s, reqs).responses[i] == Serve(next, reqs[1..]).responses[i - 1];
    }
  }

  /** After a run of clean creates on `f`, its seat count has gone down by
      the number of requests, stopping at 0. */
  lemma {:induction false} FirstComeFinal(s: State, reqs: seq<Request>, f: FlightId)
    requires Valid(s) && f in s.seats && CleanCreatesOn(reqs, f)
    ensures f in Serve(s, reqs).final.seats
    ensures Serve(s, reqs).final.seats[f] == if |reqs| <= s.seats[f] then s.seats[f] - |reqs| else 0
    decreases |reqs|
  {
    if |reqs| > 0 {
      var next := Handle(s, reqs[0]).1;
      CleanCreateStep(s, reqs[0], f);
      ServeFirst(s, reqs);
      CleanCreatesTail(reqs, f);
      FirstComeFinal(next, reqs[1..], f);
    }
  }

  /** First come, first served: when `k` seats are left on a flight and
      requests for it arrive one after another, the first `k` are booked
      and every later one is refused for lack of seats. */
  lemma FirstComeFirstServed(s: State, reqs: seq<Request>, f: FlightId)
    requires Valid(s) && f in s.seats && CleanCreatesOn(reqs, f)
    ensures forall i :: 0 <= i < |reqs| ==> (Serve(s, reqs).responses[i].Created? <==> i < s.seats[f])
    ensures forall i :: s.seats[f] <= i < |reqs| ==> Serve(s, reqs).responses[i] == Failed(NoCapacity)
    ensures Serve(s, reqs).final.seats[f] == if |reqs| <= s.seats[f] then s.seats[f] - |reqs| else 0
  {
    forall i | 0 <= i < |reqs|
      ensures Serve(s, reqs).responses[i].Created? <==> i < s.seats[f]
      ensures s.seats[f] <= i ==> Serve(s, reqs).responses[i] == Failed(NoCapacity)
    {
      FirstComeAt(s, reqs, f, i);
    }
    FirstComeFinal(s, reqs, f);
  }

  /** Every cancel in the run that finds its booking finds it confirmed. */
  ghost predicate CancelsOnlyConfirmed(s: State, reqs: seq<Request>)
    decreases |reqs|
  {
    if |reqs| == 0 then true
    else
      && (reqs[0].CancelRequest? && reqs[0].id in s.bookings ==>
            s.bookings[reqs[0].id].status == Confirmed)
      && CancelsOnlyConfirmed(Handle(s, reqs[0]).1, reqs[1..])
  }

  /** Conservation over a whole run: as long as no booking is cancelled
      twice, every flight's seats plus confirmed bookings ends where it
      started. */
  lemma {:induction false} RunConserves(s: State, reqs: seq<Request>, g: FlightId)
    requires Valid(s) && g in s.seats && CancelsOnlyConfirmed(s, reqs)
    ensures g in Serve(s, reqs).final.seats
    ensures Tally(Serve(s, reqs).final, g) == Tally(s, g)
    decreases |reqs|
  {
    if |reqs| > 0 {
      var next := Handle(s, reqs[0]).1;
      match reqs[0] {
        case CreateRequest(user, flight, fault) =>
          CreateConserves(s, user, flight, fault, g);
        case CancelRequest(id, fault) =>
          CancelConfirmedConserves(s, id, fault, g);
      }
      RunConserves(next, reqs[1..], g);
    }
  }
}
