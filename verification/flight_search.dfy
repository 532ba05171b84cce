/** The client-side search of the home page: `handleSearch` narrows the
    loaded flights by route and, optionally, by a date range, then sorts
    them by departure time; the two city inputs offer suggestions drawn
    from the list of all cities. */
module FlightSearch {
  import opened Text
  import opened Sequences

  /** The fields of a flight row the search reads. */
  datatype Flight = Flight(id: int, departure: string, destination: string, date: string, price: real)

  /** The search form's state when it is submitted. */
  datatype SearchForm = SearchForm(searchFrom: string, searchTo: string, useDate: bool, startDate: string, endDate: string)

  /** Both route fields occur in the flight's cities, ignoring case. */
  predicate MatchesRoute(f: Flight, form: SearchForm)
  {
    ContainsIgnoringCase(f.departure, form.searchFrom) && ContainsIgnoringCase(f.destination, form.searchTo)
  }

  /** `useDate && startDate && endDate`: the box is ticked and both bounds
      are non-empty. */
  predicate DateFilterOn(form: SearchForm)
  {
    form.useDate && form.startDate != "" && form.endDate != ""
  }

  /** `flight.date >= startDate && flight.date <= endDate`, compared as strings. */
  predicate InDateRange(f: Flight, form: SearchForm)
  {
    LexLessEq(form.startDate, f.date) && LexLessEq(f.date, form.endDate)
  }

  /** The flights a submitted form asks for, before ordering. */
  predicate Selected(f: Flight, form: SearchForm)
  {
    MatchesRoute(f, form) && (DateFilterOn(form) ==> InDateRange(f, form))
  }

  /** `handleSearch`: the selected flights in ascending order of departure
      time, where `timeOf(d)` stands for `new Date(d).getTime()`. */
  function HandleSearch(flights: seq<Flight>, form: SearchForm, timeOf: string -> int): (r: seq<Flight>)
    ensures forall f :: f in r ==> MatchesRoute(f, form)
    ensures DateFilterOn(form) ==> forall f :: f in r ==> InDateRange(f, form)
    // a rearrangement of exactly the selected input flights, duplicates included
    ensures forall f :: multiset(r)[f] == if Selected(f, form) then multiset(flights)[f] else 0
    ensures SortedBy(r, (f: Flight) => timeOf(f.date))
  {
    var byRoute := Filter(flights, (f: Flight) => MatchesRoute(f, form));
    var byDate := if DateFilterOn(form) then Filter(byRoute, (f: Flight) => InDateRange(f, form)) else byRoute;
    var r := SortBy(byDate, (f: Flight) => timeOf(f.date));
    assert forall f :: f in r ==> Selected(f, form) by {
      forall f | f in r ensures Selected(f, form) {
        assert multiset(r)[f] > 0;
      }
    }
    r
  }

  /** Every flight the search keeps is in the loaded list, and every
      loaded flight that the form selects is kept. */
  lemma SearchKeepsExactlySelected(flights: seq<Flight>, form: SearchForm, timeOf: string -> int, f: Flight)
    ensures f in HandleSearch(flights, form, timeOf) <==> f in flights && Selected(f, form)
  {
    var r := HandleSearch(flights, form, timeOf);
    assert f in r <==> multiset(r)[f] > 0;
    assert f in flights <==> multiset(flights)[f] > 0;
  }

  /** Submitting an empty form shows every loaded flight. */
  lemma EmptyFormKeepsAll(flights: seq<Flight>, form: SearchForm, timeOf: string -> int)
    requires form.searchFrom == "" && form.searchTo == "" && !form.useDate
    ensures multiset(HandleSearch(flights, form, timeOf)) == multiset(flights)
  {
    forall f: Flight ensures Selected(f, form) {
      ContainsEmpty(Lower(f.departure));
      ContainsEmpty(Lower(f.destination));
    }
  }

  /** The date filter applies only when it is switched on and both bounds
      are filled in; otherwise the dates play no part. */
  lemma DateBoundsIgnoredWhenOff(flights: seq<Flight>, form: SearchForm, timeOf: string -> int, start: string, end: string)
    requires !DateFilterOn(form)
    ensures multiset(HandleSearch(flights, form, timeOf))
            == multiset(HandleSearch(flights, form.(useDate := false, startDate := start, endDate := end), timeOf))
  {
  }

  /** The suggestions under a city input for what has been typed so far. */
  function CitySuggestions(query: string, allCities: seq<string>): (r: seq<string>)
    ensures Trim(query) == "" ==> r == []
    ensures Trim(query) != "" ==>
              forall c :: c in r <==> c in allCities && ContainsIgnoringCase(c, query)
    // kept in the order of the city list, each as often as it is listed
    ensures IsSubsequence(r, allCities)
    ensures Trim(query) != "" ==>
              forall c :: multiset(r)[c] == if ContainsIgnoringCase(c, query) then multiset(allCities)[c] else 0
  {
    if Trim(query) != "" then
      var r := Filter(allCities, (c: string) => ContainsIgnoringCase(c, query));
      assert forall c :: c in r <==> c in allCities && ContainsIgnoringCase(c, query) by {
        forall c ensures c in r <==> c in allCities && ContainsIgnoringCase(c, query) {
          FilterMembership(allCities, (c: string) => ContainsIgnoringCase(c, query), c);
        }
      }
      r
    else []
  }

  /** A query of nothing but whitespace offers no suggestion. */
  lemma BlankQueryNoSuggestions(query: string, allCities: seq<string>)
    requires forall i :: 0 <= i < |query| ==> IsJsWhitespace(query[i])
    ensures CitySuggestions(query, allCities) == []
  {
    TrimEmptyIffBlank(query);
  }

  /** A query with a non-blank character filters by the query as typed:
      a city is offered exactly when it contains the untrimmed query. */
  lemma NonBlankQuerySuggestions(query: string, allCities: seq<string>, c: string)
    requires exists i :: 0 <= i < |query| && !IsJsWhitespace(query[i])
    ensures c in CitySuggestions(query, allCities) <==> c in allCities && ContainsIgnoringCase(c, query)
  {
    TrimEmptyIffBlank(query);
  }
}
