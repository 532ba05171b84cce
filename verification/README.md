# Flight seat booking: a Dafny model

This project models the seat-inventory core of a small flight-booking
application (an Express back end over PostgreSQL, and a Next.js front end),
and proves properties of it with Dafny 4.11.

- `booking_core.dfy` (module `BookingCore`): the two state-changing handlers
  of the back end, `POST /api/bookings` (create) and
  `PUT /api/bookings/:id/cancel` (cancel). The `flights.seats` column and the
  `bookings` table are immutable maps, and the bookings' id sequence is a
  counter. Each handler is one atomic transition `State -> (result, State)`.
  The store's queries may fail; the `Fault` parameter names the step whose
  query throws. In the model, a fault the transaction reaches rolls
  everything back and answers 500, and every failure returns the state it was
  given. The running system can differ from this in two ways: the
  `ROLLBACK` itself may throw, and a `COMMIT` that throws may already have
  taken effect (see "Left out").
- `booking_runs.dfy` (module `BookingRuns`): requests served one after the
  other, which is what the `FOR UPDATE` row lock makes of concurrent requests
  on one flight. It proves no oversell, and conservation over whole runs.
- `flight_query.dfy` (module `FlightQuery`): the SQL text/parameter builder of
  `GET /api/flights`. It also defines a reader of positional placeholders
  `$k`, used to prove the placeholders are `$1..$n` in order.
- `flight_search.dfy` (module `FlightSearch`): the client-side `handleSearch`
  filter/date-range/sort, and the city suggestions.
- `booked_flights.dfy` (module `BookedFlights`): the local list update after a
  cancel, and the "Cancel only when confirmed" guard.
- `cancel_flow.dfy` (module `CancelFlow`): the guard and the cancel handler
  taken together.
- `text.dfy` (module `Text`) and `sequences.dfy` (module `Sequences`): the
  JavaScript string and array operations these use: ASCII lower-casing,
  `includes`, `trim`, string `<=`, decimal numbers, `filter`, and `sort`.

The cancel handler does not look at a booking's status before it gives the
seat back. The model keeps that behaviour. `BookingCore.RecancelOverCredits`
shows that cancelling an already-cancelled booking succeeds and adds one
seat to its flight's seats-plus-confirmed total. Conservation is therefore
proved for cancels of confirmed bookings only (`CancelConfirmedConserves`,
`RunConserves`). `CancelFlow.OfferedCancelConserves` shows that a cancel
started from a booked-flights card that shows the stored status always falls
in that case. The page's own logic would not keep its cards that way if its
requests were delivered. A double click on Cancel sends two requests before
the button disappears (`CancelFlow.DoubleClickOverCredits`). Two overlapping
cancels each map over the list their render captured, so the later one shows
the earlier booking as confirmed again
(`BookedFlights.OverlappingCancelsReviveOffer`). As written, though, the
page's cancel request does not reach the back end at all (see "Left out"). The
back-end over-credit (`RecancelOverCredits`) holds for any client that sends
the same cancel twice.

## Model

| member | source | states |
|---|---|---|
| BookingCore.CreateBooking | backend/server.js:88-125 | A create succeeds exactly when the flight exists, has `seats > 0`, and none of the queries it runs throws. An absent flight gives NotFound, and a flight with `seats <= 0` gives NoCapacity, unless the BEGIN or the locking SELECT throws first. A query that throws gives TransientFailure. Every failure leaves the state unchanged. A success adds exactly one confirmed booking for the given user and flight, under a fresh id, and returns that id. It takes one seat from that flight only, leaves every other flight and booking as it was, and keeps all seat counts non-negative. |
| BookingCore.CancelBooking | backend/server.js:141-172 | A cancel succeeds exactly when the booking exists and none of the queries it runs throws. An unknown id gives NotFound, a query that throws gives TransientFailure, and every failure leaves the state unchanged. A success happens whatever the booking's status. It sets the status to cancelled and keeps the booking's user and flight. It gives that flight one seat back, or changes no seat count when the flight row is absent. No other booking or flight changes. |
| BookingCore.ErrorStatus | backend/server.js:98-121 | The error responses are exactly 404 for a missing flight or booking, 400 for no seats, and 500 for a query that threw. Only the last is a server error. |
| BookingCore.CreateStatus | backend/server.js:117 | A create answers with a 2xx code exactly when it succeeds. A failure answers with its error's code. |
| BookingCore.CancelStatus | backend/server.js:164 | A cancel answers with a 2xx code exactly when it succeeds. A failure answers with its error's code. |
| BookingCore.CreateAnswers | backend/server.js:88-125 | `POST /api/bookings` answers 201 exactly when the flight exists, has a free seat and no query throws. It answers 404 exactly for an unknown flight and 400 exactly for a full one, once the lock is taken. It answers 500 exactly when a query it reaches throws. |
| BookingCore.CancelAnswers | backend/server.js:141-172 | `PUT /api/bookings/:id/cancel` answers 200 exactly when the booking exists and no query throws. It answers 404 exactly for an unknown booking and 500 exactly when a query it reaches throws. It never answers 400. |
| BookingCore.CreateConserves | backend/server.js:107-114 | Create, whatever its outcome, keeps every flight's seats + confirmed bookings unchanged. |
| BookingCore.CancelConfirmedConserves | backend/server.js:148-161 | Cancel of a confirmed booking (or a failed cancel) keeps every flight's seats + confirmed bookings unchanged, also when the booking's flight row is gone. |
| BookingCore.RecancelOverCredits | backend/server.js:148-161 | Cancelling a booking that is already cancelled still succeeds, and its flight's seats + confirmed bookings grows by one. |
| BookingCore.CreateThenCancelRestoresSeats | backend/server.js:108-161 | On a flight with a free seat, a create and then a cancel of the returned id both succeed. It restores the whole seat table to its value before the create, and leaves only the new booking, now cancelled. |
| BookingCore.LostCommitRetryOverCredits | backend/server.js:162-167 | When the COMMIT of a cancel of a confirmed booking takes effect but its reply is lost, the client gets a 500. Retrying the request then succeeds, and the flight's seats + confirmed bookings ends one higher than before the first request. |
| BookingCore.LastSeatSoldOnce | backend/server.js:95-114 | With one seat left, the first of two create requests succeeds and the second gets NoCapacity, leaving 0 seats. |
| BookingRuns.Serve | backend/server.js:88-172 | Serving requests one after another gives one response per request, keeps the set of flights, and keeps the store well formed (non-negative seats, ids from the sequence). |
| BookingRuns.NoOversell | backend/server.js:95-114 | Over any run of create requests, seats sold on a flight plus its final seat count equal its initial seat count, so no more seats are sold than it had. |
| BookingRuns.FirstComeFirstServed | backend/server.js:95-114 | When k seats are left on a flight and create requests for it are served one after another with no query failing, exactly the first k are booked, every later one gets NoCapacity, and the seat count ends at k minus the number of requests, or 0. |
| BookingRuns.RunConserves | backend/server.js:107-161 | Over any run in which each cancel that finds its booking finds it confirmed, every flight's seats + confirmed bookings ends where it started. |
| FlightQuery.BuildFlightsQuery | backend/server.js:45-64 | The statement is `SELECT * FROM flights WHERE 1=1`, then one condition per given field in the order departure, destination, date, then ` ORDER BY date ASC`. The departure condition tests `LOWER(departure)`, the destination condition tests `LOWER(destination)`, and the date condition tests `DATE(date)`. The i-th condition's value is parameter i: `%departure%`, `%destination%`, the raw date. Read back from the text, the placeholders are exactly $1..$n with n = number of parameters. |
| FlightQuery.FiltersBuildRequested | backend/server.js:45-62 | The three filter steps, run in the handler's order from the bare SELECT, give exactly the text and parameters of the conditions the request's fields ask for. |
| FlightQuery.FilterLikeBuilds | backend/server.js:49-57 | A given departure/destination field appends the LIKE condition on its own column, numbered after the conditions already there, and binds `%value%`. An absent or empty field appends nothing. |
| FlightQuery.FilterDateBuilds | backend/server.js:59-62 | A given date field appends the `DATE(date)` condition, numbered after the conditions already there, and binds the raw date. An absent or empty date appends nothing. |
| FlightQuery.AddLike | backend/server.js:49-57 | Appending a LIKE condition keeps the earlier text and parameters. It pushes `%value%` last and keeps the placeholders numbered $1..$n. |
| FlightQuery.FilterLike | backend/server.js:49-57 | A present departure/destination filter appends exactly the LIKE condition on its own column, numbered next, and pushes `%value%` last. An absent or empty one returns the query unchanged. Either way the placeholders stay numbered $1..$n. |
| FlightQuery.FilterDate | backend/server.js:59-62 | A present date filter appends exactly the `DATE(date)` condition, numbered next, and pushes the date last. An absent or empty one returns the query unchanged. Either way the placeholders stay numbered $1..$n. |
| FlightQuery.AddDate | backend/server.js:59-62 | Appending the date condition keeps the earlier text and parameters. It pushes the date last and keeps the placeholders numbered $1..$n. |
| FlightQuery.PlaceholdersAppend | backend/server.js:50 | Text that does not start with a digit can be appended without changing the placeholders read before it, so a condition's number is never run together with what follows. |
| Text.DecimalRoundTrip | backend/server.js:50 | The number written after `$` reads back as the same number. |
| Text.TrimEmptyIffBlank | frontend/app/page.tsx:308 | `trim()` gives the empty string exactly when every character is JavaScript whitespace. |
| Sequences.Filter | frontend/app/page.tsx:71-74 | `filter` keeps only accepted elements, each as often as in the input, as a subsequence of the input. |
| Sequences.SortBy | frontend/app/page.tsx:82 | `sort` with a numeric-difference comparator gives an ascending rearrangement of its input. |
| FlightSearch.HandleSearch | frontend/app/page.tsx:69-84 | Every result matches departure and destination case-insensitively. When the date filter is on, every result lies in [startDate, endDate] under string order. The results are a rearrangement of exactly the selected input flights, in ascending departure time. |
| FlightSearch.SearchKeepsExactlySelected | frontend/app/page.tsx:71-80 | A flight is in the results exactly when it is in the loaded list and the form selects it. |
| FlightSearch.EmptyFormKeepsAll | frontend/app/page.tsx:71-80 | Empty search fields with the date box unticked select every loaded flight. |
| FlightSearch.DateBoundsIgnoredWhenOff | frontend/app/page.tsx:76-80 | When the date filter is off (box unticked or a bound empty), the bounds do not affect the results. |
| FlightSearch.CitySuggestions | frontend/app/page.tsx:307-327 | There are no suggestions when the trimmed query is empty. Otherwise the suggestions are exactly the listed cities containing the query case-insensitively, each as often as listed, in list order. |
| FlightSearch.BlankQueryNoSuggestions | frontend/app/page.tsx:308-315 | A query of nothing but whitespace gets no suggestions. |
| FlightSearch.NonBlankQuerySuggestions | frontend/app/page.tsx:308-312 | A query with a non-whitespace character offers a city exactly when the city contains the query as typed (untrimmed), ignoring case. |
| BookedFlights.MarkCancelled | frontend/app/booked-flights/page.tsx:55-57 | The list keeps its length and order. Entries with the cancelled id get status "cancelled" with all other fields unchanged. Other entries are unchanged. |
| BookedFlights.MarkCancelledIdempotent | frontend/app/booked-flights/page.tsx:55-57 | Applying the update twice gives the same list as applying it once. |
| BookedFlights.MarkCancelledWithdrawsOffer | frontend/app/booked-flights/page.tsx:128 | After the update, a card offers Cancel exactly when it is not the cancelled booking and it offered Cancel before. |
| BookedFlights.HandleCancelBooking | frontend/app/booked-flights/page.tsx:46-60 | After an ok response, the list becomes the list the handler's render captured: same cards, same order, all fields kept, except that the cancelled one shows "cancelled". The error message is kept. After a failure, the current list is unchanged and only the error message is set. |
| BookedFlights.OverlappingCancelsReviveOffer | frontend/app/booked-flights/page.tsx:55-57 | When two cancels from the same render both succeed, the later update shows the first cancelled booking as confirmed again, with Cancel offered again. |
| CancelFlow.OfferedCancelConserves | frontend/app/booked-flights/page.tsx:128-131 | A cancel sent from a card that offers Cancel and shows the stored status keeps every flight's seats + confirmed bookings unchanged. Its premise, that the card shows the stored status, is one the page does not guarantee. |
| CancelFlow.DoubleClickOverCredits | frontend/app/booked-flights/page.tsx:128-131 | Two clicks on one confirmed card's Cancel, sent before the button disappears, both succeed, and the flight's seats + confirmed bookings ends one higher. |

## Left out

- Concurrency: the `FOR UPDATE` row lock, the connection pool, and `connect`/`release`. Each handler is one atomic transition, and concurrent requests are modelled as the serial order the lock imposes (`BookingRuns.Serve`).
- A failing `ROLLBACK` is not modelled. On the NotFound/NoCapacity paths the model answers 404/400. In the catch block (server.js lines 119 and 166), a `ROLLBACK` that throws means the 500 is never sent: the handler's promise rejects and the `unhandledRejection` hook logs it. This is likely when the fault is a lost connection. The model answers 500 there. For faults before `COMMIT`, the state claims still hold, because the uncommitted transaction is discarded either way.
- BookingCore.CreateBooking: a fault at `COMMIT` (server.js line 116) is modelled as a rollback that leaves the state unchanged. A `COMMIT` whose reply was lost, for example when the connection drops, may in fact have taken effect while the handler answers 500. The store then holds the Ok post-state, which `CreateConserves` covers, so conservation still holds; the client, though, is told the booking failed.
- BookingCore.CancelBooking: a fault at `COMMIT` (server.js line 163) is modelled as a rollback, although a `COMMIT` whose reply was lost may have taken effect. The store then holds the Ok post-state, which `CancelConfirmedConserves` covers. A retry of the same request after that 500 cancels the booking again and over-credits its flight (`BookingCore.LostCommitRetryOverCredits`).
- The `Fault` parameter stands for any error a store query throws, for example a malformed id or a lost connection. A fault at a step the path does not reach has no effect.
- The bookings' id sequence is a counter that a rollback restores. PostgreSQL does not roll back sequence values, so real ids can have gaps. The model does not rely on gap-free ids.
- SQL evaluated by the database cannot be seen: the cities query, the user-bookings join, and the meaning of `LIKE`/`DATE()` in the filter query. Only the filter query's text and parameters are modelled.
- Express `req.query` values that are arrays (a repeated query field) are not modelled; a field is either missing or one string.
- Query timing/logging, Express/CORS setup, `listen` and `unhandledRejection`, and the single-flight lookup `GET /api/flights/:id`.
- The `frontend/app/api/*/route.ts` proxies, React rendering and routing, the login toggle, and the unused mock flight list.
- `new Date(...).getTime()` is the parameter `timeOf`. An invalid date (NaN) is not modelled.
- `toLocale*` display formatting is not modelled.
- Lower-casing covers ASCII letters only. JavaScript's `toLowerCase` is full Unicode.
- String `<=` compares Unicode code points; JavaScript compares UTF-16 code units. The two orders differ only above U+FFFF.
- Sequences.SortBy: stability of `Array.prototype.sort` (equal times keep their input order) is not stated.
- BookingCore.CreateBooking: the fresh-id guarantee (`id !in` the old bookings) is stated under the well-formedness `Valid`, which is kept by every handler.
- BookedFlights.HandleCancelBooking: whether the request succeeded is the free parameter `ok`. As written, the page's PUT does not reach the back end. The URL in booked-flights/page.tsx line 48 is `http:/backend-dev:3001/api/bookings/<id>/cancel`. It has the page's own scheme and only one slash, so a browser's URL parser reads `backend-dev:3001/...` as a path on the page's own origin: `http://localhost:3000/backend-dev:3001/api/bookings/<id>/cancel`. The front end's server has no such route and answers 404, `response.ok` is false, and the catch at line 58 runs. The model, `OverlappingCancelsReviveOffer` and `CancelFlow.DoubleClickOverCredits` describe the page's logic once a PUT is delivered.
- The booked-flights page is not kept up to date with the store. The model shows the two ways its logic falls behind (`CancelFlow.DoubleClickOverCredits`, `BookedFlights.OverlappingCancelsReviveOffer`). It does not model React's scheduling of renders and state updates beyond the captured list.
- The front-end suggestion effects run on every change of the input. The model gives their result for one query value.
