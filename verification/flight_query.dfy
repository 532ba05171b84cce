/** The text/parameter builder of `GET /api/flights`: each present filter
    appends a condition with the next numbered placeholder `$k` and pushes
    its value, so that the k-th parameter is the one `$k` refers to. */
module FlightQuery {
  import opened Text

  /** A field of the request's query string: absent, or its text. */
  datatype QueryValue = Missing | Given(text: string)

  /** JavaScript truthiness of a query-string field: present and non-empty. */
  predicate Truthy(v: QueryValue)
  {
    v.Given? && v.text != ""
  }

  datatype Query = Query(text: string, params: seq<string>)

  const Select: string := "SELECT * FROM flights WHERE 1=1"
  const OrderBy: string := " ORDER BY date ASC"

  /** The length of the run of digits `t` starts with. */
  function DigitRunLength(t: string): (n: nat)
    ensures n <= |t|
    ensures forall i :: 0 <= i < n ==> IsDigit(t[i])
    ensures n < |t| ==> !IsDigit(t[n])
  {
    if |t| == 0 || !IsDigit(t[0]) then 0 else 1 + DigitRunLength(t[1..])
  }

  /** The numbers of the positional parameters `$k` in a statement, in
      order of appearance: every `$` followed by digits. This is how the
      database reads text that has no quoted literal and no `$` right after
      an identifier character, which holds of all the text built here. */
  function Placeholders(t: string): seq<nat>
    decreases |t|
  {
    if |t| == 0 then []
    else if t[0] == '$' && 1 < |t| && IsDigit(t[1]) then
      var n := DigitRunLength(t[1..]);
      [DecimalValue(t[1..1 + n])] + Placeholders(t[1 + n..])
    else Placeholders(t[1..])
  }

  /** 1, 2, ..., n. */
  function Numbering(n: nat): (r: seq<nat>)
    ensures |r| == n
    ensures forall i :: 0 <= i < n ==> r[i] == i + 1
  {
    if n == 0 then [] else Numbering(n - 1) + [n]
  }

  /** Concatenation is associative. */
  lemma AppendAssoc<T>(a: seq<T>, b: seq<T>, c: seq<T>)
    ensures a + (b + c) == (a + b) + c
  {
  }

  lemma {:induction false} DigitRunAppend(a: string, b: string)
    requires |b| == 0 || !IsDigit(b[0])
    ensures DigitRunLength(a + b) == DigitRunLength(a)
    decreases |a|
  {
    if |a| > 0 && IsDigit(a[0]) {
      assert (a + b)[1..] == a[1..] + b;
      DigitRunAppend(a[1..], b);
    }
  }

  /** The digits after a `$` are read the same with text glued on that
      does not start with a digit. */
  lemma DollarRunAppend(a: string, b: string)
    requires |b| == 0 || !IsDigit(b[0])
    requires 1 < |a|
    ensures var n := DigitRunLength(a[1..]);
      && DigitRunLength((a + b)[1..]) == n
      && (a + b)[1..1 + n] == a[1..1 + n]
      && (a + b)[1 + n..] == a[1 + n..] + b
  {
    assert (a + b)[1..] == a[1..] + b;
    DigitRunAppend(a[1..], b);
  }

  /** Gluing on text that does not start with a digit cannot extend a
      placeholder number, so the placeholders of the two parts line up. */
  lemma {:induction false} PlaceholdersAppend(a: string, b: string)
    requires |b| == 0 || !IsDigit(b[0])
    ensures Placeholders(a + b) == Placeholders(a) + Placeholders(b)
    decreases |a|
  {
    if |a| == 0 {
      assert a + b == b;
    } else if a[0] == '$' && 1 < |a| && IsDigit(a[1]) {
      var ab := a + b;
      var n := DigitRunLength(a[1..]);
      DollarRunAppend(a, b);
      assert ab[0] == '$' && ab[1] == a[1];
      var digits := a[1..1 + n];
      assert forall i :: 0 <= i < |digits| ==> digits[i] == a[1..][i];
      PlaceholdersAppend(a[1 + n..], b);
      var head := [DecimalValue(digits)];
      assert Placeholders(ab) == head + (Placeholders(a[1 + n..]) + Placeholders(b));
      assert Placeholders(a) == head + Placeholders(a[1 + n..]);
      AppendAssoc(head, Placeholders(a[1 + n..]), Placeholders(b));
    } else {
      assert (a + b)[1..] == a[1..] + b;
      PlaceholdersAppend(a[1..], b);
    }
  }

  lemma {:induction false} NoDollarNoPlaceholders(t: string)
    requires '$' !in t
    ensures Placeholders(t) == []
    decreases |t|
  {
    if |t| > 0 {
      assert t[0] != '$';
      NoDollarNoPlaceholders(t[1..]);
    }
  }

  lemma SelectHasNoPlaceholders()
    ensures Placeholders(Select) == []
  {
    NoDollarNoPlaceholders(Select);
  }

  /** The closing ` ORDER BY date ASC` adds no placeholder. */
  lemma OrderByAddsNoPlaceholders(t: string)
    ensures Placeholders(t + OrderBy) == Placeholders(t)
  {
    NoDollarNoPlaceholders(OrderBy);
    PlaceholdersAppend(t, OrderBy);
  }

  lemma ColumnHasNoDollar(column: string)
    requires column == "departure" || column == "destination"
    ensures '$' !in column
  {
  }

  /** `$k` on its own reads back as the placeholder `k`. */
  lemma MarkedPlaceholder(k: nat)
    ensures Placeholders("$" + NatToString(k)) == [k]
  {
    var digits := NatToString(k);
    var marked := "$" + digits;
    assert marked[1..] == digits;
    assert DigitRunLength(digits) == |digits|;
    assert marked[1..1 + |digits|] == digits;
    assert marked[1 + |digits|..] == "";
    DecimalRoundTrip(k);
  }

  /** A condition `head` + `$k` + `tail` holds exactly the placeholder `k`. */
  lemma ClausePlaceholders(head: string, k: nat, tail: string)
    requires '$' !in head && '$' !in tail
    requires |tail| == 0 || !IsDigit(tail[0])
    ensures Placeholders(head + ("$" + NatToString(k) + tail)) == [k]
  {
    var marked := "$" + NatToString(k);
    var rest := marked + tail;
    assert rest[0] == '$';
    NoDollarNoPlaceholders(head);
    NoDollarNoPlaceholders(tail);
    MarkedPlaceholder(k);
    PlaceholdersAppend(marked, tail);
    assert Placeholders(rest) == [k];
    PlaceholdersAppend(head, rest);
  }

  /** The placeholders of a query are $1..$n, one per parameter, in order. */
  predicate Aligned(q: Query)
  {
    Placeholders(q.text) == Numbering(|q.params|)
  }

  /** A condition the statement can carry: a case-insensitive LIKE test of
      a column, or a test of the flight's day. */
  datatype Condition = Like(column: string, value: string) | OnDate(date: string)

  /** The SQL text of condition `c` when its value is parameter `$k`. */
  function ClauseText(c: Condition, k: nat): string
  {
    match c
    case Like(column, _) => " AND LOWER(" + column + ") LIKE LOWER(" + ("$" + NatToString(k) + ")")
    case OnDate(_) => " AND DATE(date) = $" + NatToString(k)
  }

  /** A condition's text holds exactly its own placeholder `$k`, and
      starts with a space, so nothing before it can absorb its digits. */
  lemma ClauseNumbered(c: Condition, k: nat)
    requires c.Like? ==> '$' !in c.column
    ensures Placeholders(ClauseText(c, k)) == [k]
    ensures ClauseText(c, k)[0] == ' '
  {
    match c
    case Like(column, _) =>
      var head := " AND LOWER(" + column + ") LIKE LOWER(";
      assert head[0] == ' ';
      ClausePlaceholders(head, k, ")");
    case OnDate(_) =>
      var digits := NatToString(k);
      assert " AND DATE(date) = $" + digits == " AND DATE(date) = " + ("$" + digits + "");
      ClausePlaceholders(" AND DATE(date) = ", k, "");
  }

  /** The parameter value condition `c` binds. */
  function ParamOf(c: Condition): string
  {
    match c
    case Like(_, value) => "%" + value + "%"
    case OnDate(date) => date
  }

  /** The text of a list of conditions, the i-th of them testing `$(i+1)`. */
  function Render(cs: seq<Condition>): string
  {
    if |cs| == 0 then "" else Render(cs[..|cs| - 1]) + ClauseText(cs[|cs| - 1], |cs|)
  }

  /** The parameters of a list of conditions, in order. */
  function Values(cs: seq<Condition>): (r: seq<string>)
    ensures |r| == |cs|
    ensures forall i :: 0 <= i < |cs| ==> r[i] == ParamOf(cs[i])
  {
    if |cs| == 0 then [] else Values(cs[..|cs| - 1]) + [ParamOf(cs[|cs| - 1])]
  }

  /** The conditions a request asks for, in the order the handler tests its
      fields: departure, destination, date; an absent or empty field asks
      for none. */
  function Requested(departure: QueryValue, destination: QueryValue, date: QueryValue): seq<Condition>
  {
    (if Truthy(departure) then [Like("departure", departure.text)] else [])
    + (if Truthy(destination) then [Like("destination", destination.text)] else [])
    + (if Truthy(date) then [OnDate(date.text)] else [])
  }

  /** `q` is the filter statement carrying the conditions `cs`, before its
      ORDER BY. */
  predicate BuiltFrom(q: Query, cs: seq<Condition>)
  {
    q.text == Select + Render(cs) && q.params == Values(cs)
  }

  /** Rendering one more condition appends its clause, numbered next. */
  lemma RenderSnoc(cs: seq<Condition>, c: Condition)
    ensures Render(cs + [c]) == Render(cs) + ClauseText(c, |cs| + 1)
  {
    var more := cs + [c];
    assert more[..|more| - 1] == cs && more[|more| - 1] == c;
  }

  /** Appending the clause for the next number keeps a statement built from
      its conditions. */
  lemma AppendCondition(q: Query, cs: seq<Condition>, c: Condition)
    requires BuiltFrom(q, cs)
    ensures BuiltFrom(Query(q.text + ClauseText(c, |q.params| + 1), q.params + [ParamOf(c)]), cs + [c])
  {
    RenderSnoc(cs, c);
    AppendAssoc(Select, Render(cs), ClauseText(c, |cs| + 1));
    var more := cs + [c];
    assert more[..|more| - 1] == cs;
    assert Values(more) == Values(cs) + [ParamOf(c)];
  }

  /** Appending the clause of `c`, numbered next, and binding its value
      keeps the placeholders numbered $1..$n. */
  lemma AppendClauseAligned(q: Query, c: Condition)
    requires Aligned(q)
    requires c.Like? ==> '$' !in c.column
    ensures Aligned(Query(q.text + ClauseText(c, |q.params| + 1), q.params + [ParamOf(c)]))
  {
    var clause := ClauseText(c, |q.params| + 1);
    ClauseNumbered(c, |q.params| + 1);
    PlaceholdersAppend(q.text, clause);
  }

  /** Appends ` AND LOWER(column) LIKE LOWER($k)` for the next number `k`
      and pushes `%value%` as the k-th parameter. */
  function AddLike(q: Query, column: string, value: string): (r: Query)
    ensures q.text <= r.text
    ensures r.params == q.params + ["%" + value + "%"]
    ensures Aligned(q) && '$' !in column ==> Aligned(r)
  {
    var c := Like(column, value);
    var r := Query(q.text + ClauseText(c, |q.params| + 1), q.params + [ParamOf(c)]);
    assert Aligned(q) && '$' !in column ==> Aligned(r) by {
      if Aligned(q) && '$' !in column {
        AppendClauseAligned(q, c);
      }
    }
    r
  }

  /** Appends ` AND DATE(date) = $k` for the next number `k` and pushes the
      date as the k-th parameter. */
  function AddDate(q: Query, date: string): (r: Query)
    ensures q.text <= r.text
    ensures r.params == q.params + [date]
    ensures Aligned(q) ==> Aligned(r)
  {
    var c := OnDate(date);
    var r := Query(q.text + ClauseText(c, |q.params| + 1), q.params + [ParamOf(c)]);
    assert Aligned(q) ==> Aligned(r) by {
      if Aligned(q) {
        AppendClauseAligned(q, c);
      }
    }
    r
  }

  /** `if (value) { ...AddLike... }` */
  function FilterLike(q: Query, column: string, value: QueryValue): (r: Query)
    requires column == "departure" || column == "destination"
    ensures q.text <= r.text
    // a given field appends exactly its own column's condition, numbered next ...
    ensures Truthy(value) ==> r.text == q.text + ClauseText(Like(column, value.text), |q.params| + 1)
    // ... and an absent or empty one changes nothing
    ensures !Truthy(value) ==> r == q
    ensures r.params == q.params + (if Truthy(value) then ["%" + value.text + "%"] else [])
    ensures Aligned(q) ==> Aligned(r)
  {
    if Truthy(value) then
      ColumnHasNoDollar(column);
      AddLike(q, column, value.text)
    else q
  }

  /** `if (date) { ...AddDate... }` */
  function FilterDate(q: Query, date: QueryValue): (r: Query)
    ensures q.text <= r.text
    ensures Truthy(date) ==> r.text == q.text + ClauseText(OnDate(date.text), |q.params| + 1)
    ensures !Truthy(date) ==> r == q
    ensures r.params == q.params + (if Truthy(date) then [date.text] else [])
    ensures Aligned(q) ==> Aligned(r)
  {
    if Truthy(date) then AddDate(q, date.text) else q
  }

  /** A LIKE filter appends the condition it tests, when its field is given. */
  lemma FilterLikeBuilds(q: Query, cs: seq<Condition>, column: string, value: QueryValue)
    requires column == "departure" || column == "destination"
    requires BuiltFrom(q, cs)
    ensures BuiltFrom(FilterLike(q, column, value), cs + (if Truthy(value) then [Like(column, value.text)] else []))
  {
    if Truthy(value) {
      var c := Like(column, value.text);
      assert FilterLike(q, column, value) == Query(q.text + ClauseText(c, |q.params| + 1), q.params + [ParamOf(c)]);
      AppendCondition(q, cs, c);
    } else {
      assert cs + [] == cs;
    }
  }

  /** The date filter appends the date condition, when the date is given. */
  lemma FilterDateBuilds(q: Query, cs: seq<Condition>, date: QueryValue)
    requires BuiltFrom(q, cs)
    ensures BuiltFrom(FilterDate(q, date), cs + (if Truthy(date) then [OnDate(date.text)] else []))
  {
    if Truthy(date) {
      var c := OnDate(date.text);
      assert FilterDate(q, date) == Query(q.text + ClauseText(c, |q.params| + 1), q.params + [ParamOf(c)]);
      AppendCondition(q, cs, c);
    } else {
      assert cs + [] == cs;
    }
  }

  /** The three filters, applied in the handler's order to the bare SELECT,
      build the statement of exactly the requested conditions. */
  lemma FiltersBuildRequested(departure: QueryValue, destination: QueryValue, date: QueryValue)
    ensures BuiltFrom(FilterDate(FilterLike(FilterLike(Query(Select, []), "departure", departure),
                                            "destination", destination), date),
                      Requested(departure, destination, date))
  {
    var start := Query(Select, []);
    assert BuiltFrom(start, []) by { assert Select + Render([]) == Select; }
    var cs1: seq<Condition> := if Truthy(departure) then [Like("departure", departure.text)] else [];
    var cs2 := cs1 + (if Truthy(destination) then [Like("destination", destination.text)] else []);
    var cs3 := cs2 + (if Truthy(date) then [OnDate(date.text)] else []);
    assert cs3 == Requested(departure, destination, date);
    var q1 := FilterLike(start, "departure", departure);
    FilterLikeBuilds(start, [], "departure", departure);
    assert [] + cs1 == cs1;
    var q2 := FilterLike(q1, "destination", destination);
    FilterLikeBuilds(q1, cs1, "destination", destination);
    FilterDateBuilds(q2, cs2, date);
  }

  /** The statement and parameters `GET /api/flights` sends for the query
      fields `departure`, `destination` and `date`. */
  method BuildFlightsQuery(departure: QueryValue, destination: QueryValue, date: QueryValue) returns (q: Query)
    // the placeholders are $1, $2, ... in order, exactly one per parameter
    ensures Placeholders(q.text) == Numbering(|q.params|)
    // one parameter per present filter, in the order departure, destination, date
    ensures |q.params| == (if Truthy(departure) then 1 else 0) + (if Truthy(destination) then 1 else 0)
                          + (if Truthy(date) then 1 else 0)
    ensures Truthy(departure) ==> q.params[0] == "%" + departure.text + "%"
    ensures Truthy(destination) ==>
              q.params[if Truthy(departure) then 1 else 0] == "%" + destination.text + "%"
    ensures Truthy(date) ==> q.params[|q.params| - 1] == date.text
    // the statement is the fixed SELECT, one condition per given field, each
    // testing its own column against its own parameter, then the ordering
    ensures q.text == Select + Render(Requested(departure, destination, date)) + OrderBy
    ensures q.params == Values(Requested(departure, destination, date))
  {
    var start := Query(Select, []);
    assert Aligned(start) by { SelectHasNoPlaceholders(); }
    var q1 := FilterLike(start, "departure", departure);
    var q2 := FilterLike(q1, "destination", destination);
    var q3 := FilterDate(q2, date);
    FiltersBuildRequested(departure, destination, date);
    assert Aligned(q3);
    var dep := if Truthy(departure) then 1 else 0;
    assert q3.params[..|q2.params|] == q2.params && q2.params[..|q1.params|] == q1.params;
    assert Truthy(departure) ==> q3.params[0] == q1.params[0];
    assert Truthy(destination) ==> q3.params[dep] == q2.params[dep];
    OrderByAddsNoPlaceholders(q3.text);
    q := Query(q3.text + OrderBy, q3.params);
  }
}
