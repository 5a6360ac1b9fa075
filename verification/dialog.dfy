/** One turn of the interactive dialog in main.py: the airport code the
    user typed is checked and upper-cased, the departures and the arrivals
    at that airport are fetched, and each list becomes a table. Reading the
    input, printing and prompting again are left to the caller; a turn is a
    pure step from one data-handler state to the next. */
module Dialog {
  import opened Wrappers
  import opened Flights
  import opened VatsimData
  import opened TableLayout

  /** What the dialog prints when the code is refused. */
  const RejectMessage := "Icao must be alphanumeric and 4 characters long."

  predicate IsLower(c: char) { 'a' <= c <= 'z' }

  /** A letter or a digit, in the ASCII range. */
  predicate IsAsciiAlnum(c: char) { IsLower(c) || 'A' <= c <= 'Z' || '0' <= c <= '9' }

  /** `str.isalnum`: at least one character, and every character a letter
      or a digit. */
  predicate IsAlnum(s: string) {
    |s| > 0 && forall i :: 0 <= i < |s| ==> IsAsciiAlnum(s[i])
  }

  /** `str.upper` on one character: a lower-case letter becomes its
      capital, anything else is kept. */
  function ToUpper(c: char): (r: char)
    ensures IsLower(c) ==> 'A' <= r <= 'Z' && r as int == c as int - 32
    ensures !IsLower(c) ==> r == c
    ensures !IsLower(r)
  {
    if IsLower(c) then (c as int - 32) as char else c
  }

  /** `str.upper`, character by character. */
  function Upper(s: string): (r: string)
    ensures |r| == |s|
    ensures forall i :: 0 <= i < |s| ==> r[i] == ToUpper(s[i])
    decreases |s|
  {
    if s == [] then [] else Upper(s[..|s| - 1]) + [ToUpper(s[|s| - 1])]
  }

  /** Upper-casing twice is upper-casing once. */
  lemma UpperIdempotent(s: string)
    ensures Upper(Upper(s)) == Upper(s)
  {
    assert forall i :: 0 <= i < |s| ==> Upper(Upper(s))[i] == Upper(s)[i];
  }

  /** Upper-casing leaves letters and digits letters and digits, and no
      lower-case letter behind. */
  lemma UpperKeepsAlnum(s: string)
    ensures IsAlnum(s) <==> IsAlnum(Upper(s))
    ensures forall i :: 0 <= i < |s| ==> !IsLower(Upper(s)[i])
  {
  }

  /** The check of main.py: a code is accepted when it is alphanumeric and
      exactly four characters long, and it is then used in capitals. */
  function ValidateIcao(input: string): (r: Option<string>)
    ensures r.Some? <==> IsAlnum(input) && |input| == 4
    ensures r.Some? ==> |r.value| == 4 && IsAlnum(r.value)
    ensures r.Some? ==> forall i :: 0 <= i < 4 ==> !IsLower(r.value[i])
    ensures r.Some? ==> forall i :: 0 <= i < 4 ==> !IsLower(input[i]) ==> r.value[i] == input[i]
    ensures r.Some? ==> forall i :: 0 <= i < 4 ==> IsLower(input[i]) ==> r.value[i] as int == input[i] as int - 32
    ensures r.Some? ==> r.value == Upper(input)
  {
    if IsAlnum(input) && |input| == 4 then
      UpperKeepsAlnum(input);
      Some(Upper(input))
    else
      None
  }

  /** A mixed-case code is accepted in capitals; a three-character code
      and a code with a hyphen are refused. */
  lemma ValidateIcaoExamples()
    ensures ValidateIcao("eg11") == Some("EG11")
    ensures ValidateIcao("EGLL") == Some("EGLL")
    ensures ValidateIcao("EGL") == None
    ensures ValidateIcao("EG-L") == None
  {
    assert !IsAsciiAlnum("EG-L"[2]);
    assert Upper("eg11") == "EG11" by {
      assert Upper("eg11")[0] == ToUpper('e');
      assert Upper("eg11")[1] == ToUpper('g');
    }
    assert Upper("EGLL") == "EGLL" by {
      assert forall i :: 0 <= i < 4 ==> Upper("EGLL")[i] == ToUpper("EGLL"[i]);
    }
  }

  /** The table row for a flight: its callsign, then the airport at the
      other end of the trip (the destination for a departure, the origin
      for an arrival). */
  function RowFor(f: Flight, dir: Direction): seq<string> {
    match dir
    case Departure => [f.callsign, f.plannedDestAirport]
    case Arrival => [f.callsign, f.plannedDepAirport]
  }

  /** `t` has the given title and head and one row per flight, in the
      order of `flights`. */
  predicate ListsFlights(t: Table, title: string, head: seq<string>, flights: seq<Flight>, dir: Direction) {
    && t.title == title
    && t.head == head
    && |t.rows| == |flights|
    && forall i :: 0 <= i < |flights| ==> t.rows[i] == RowFor(flights[i], dir)
  }

  /** A table whose head has cells and whose rows have two cells each always
      has a widest cell, so rendering it succeeds. */
  lemma TwoCellRowsRender(t: Table)
    requires t.head != []
    requires forall i :: 0 <= i < |t.rows| ==> |t.rows[i]| == 2
    ensures WidestCell(t).Some?
  {
  }

  /** A fresh table, given its title and head, then `add_row` for every
      flight in turn. */
  method BuildTable(title: string, head: seq<string>, flights: seq<Flight>, dir: Direction)
    returns (t: Table)
    ensures ListsFlights(t, title, head, flights, dir)
  {
    t := Blank.(title := title, head := head);
    var i := 0;
    while i < |flights|
      invariant 0 <= i <= |flights|
      invariant ListsFlights(t, title, head, flights[..i], dir)
    {
      t := AddRow(t, RowFor(flights[i], dir));
      i := i + 1;
    }
    assert flights[..|flights|] == flights;
  }

  /** What a turn shows: a refusal, or the two tables as built and as
      rendered together with the number of flights found. */
  datatype Outcome =
    | Rejected(message: string)
    | Shown(code: string, departures: Table, arrivals: Table,
            departuresText: string, arrivalsText: string, total: nat)

  /** The data-handler state after a turn, the data sources the turn read,
      in order, and what it shows. */
  datatype Turn = Turn(state: Vatsim, sources: seq<Source>, outcome: Outcome)

  /** What the dialog shows for `code` once the departures `deps` and the
      arrivals `arrs` are known. */
  predicate Shows(o: Outcome, code: string, deps: seq<Flight>, arrs: seq<Flight>, style: string -> string) {
    && o.Shown?
    && o.code == code
    && ListsFlights(o.departures, code + " DEPARTURES", ["Flight", "To"], deps, Departure)
    && ListsFlights(o.arrivals, code + " ARRIVALS", ["Flight", "From"], arrs, Arrival)
    && WidestCell(o.departures).Some?
    && WidestCell(o.arrivals).Some?
    && o.departuresText
       == "\n" + JoinLines(Lines(o.departures, style, WidestCell(o.departures).value)) + "\n"
    && o.arrivalsText
       == "\n" + JoinLines(Lines(o.arrivals, style, WidestCell(o.arrivals).value)) + "\n"
    && o.total == |deps| + |arrs|
  }

  /** The tables of one accepted code: built, rendered and counted. */
  method ShowFlights(code: string, deps: seq<Flight>, arrs: seq<Flight>, style: string -> string)
    returns (o: Outcome)
    ensures o.Shown? && o.code == code && o.total == |deps| + |arrs|
    ensures Shows(o, code, deps, arrs, style)
  {
    var depTable := BuildTable(code + " DEPARTURES", ["Flight", "To"], deps, Departure);
    var arrTable := BuildTable(code + " ARRIVALS", ["Flight", "From"], arrs, Arrival);
    TwoCellRowsRender(depTable);
    TwoCellRowsRender(arrTable);
    var depText := RenderAt(depTable, style, WidestCell(depTable).value);
    var arrText := RenderAt(arrTable, style, WidestCell(arrTable).value);
    o := Shown(code, depTable, arrTable, depText, arrText, |deps| + |arrs|);
  }

  /** One pass through `dialog` with `input` as the typed code. `dep1` and
      `dep2` are what the two staleness checks of the departures query find,
      `arr1` and `arr2` those of the arrivals query, which runs on the state
      the first query leaves. `style` colours the table titles. */
  method DialogStep(s: Vatsim, input: string, style: string -> string, dep1: Io, dep2: Io, arr1: Io, arr2: Io)
    returns (r: Result<Turn, Crash>)
    ensures ValidateIcao(input).None? ==> r == Success(Turn(s, [], Rejected(RejectMessage)))
    ensures ValidateIcao(input).Some? ==>
              (r.Failure? <==> Checks(s, [dep1, dep2]).Failure?
                               || Checks(Checks(s, [dep1, dep2]).value.state, [arr1, arr2]).Failure?)
    ensures ValidateIcao(input).Some? && Checks(s, [dep1, dep2]).Failure? ==>
              r == Failure(Checks(s, [dep1, dep2]).error)
    ensures ValidateIcao(input).Some? && Checks(s, [dep1, dep2]).Success?
            && Checks(Checks(s, [dep1, dep2]).value.state, [arr1, arr2]).Failure? ==>
              r == Failure(Checks(Checks(s, [dep1, dep2]).value.state, [arr1, arr2]).error)
    ensures r.Success? && ValidateIcao(input).Some? ==>
              var code := ValidateIcao(input).value;
              var d := Checks(s, [dep1, dep2]).value;
              var a := Checks(d.state, [arr1, arr2]).value;
              var deps := Select(d.state.data.value.pilots, code, Departure);
              var arrs := Select(a.state.data.value.pilots, code, Arrival);
              && r.value.state == a.state
              && r.value.sources == d.sources + a.sources
              && Shows(r.value.outcome, code, deps, arrs, style)
              && (a.state.data == d.state.data ==>
                    r.value.outcome.total
                    == InvolvedCount(d.state.data.value.pilots, code) + RoundTripCount(d.state.data.value.pilots, code))
  {
    var checked := ValidateIcao(input);
    if checked.None? {
      return Success(Turn(s, [], Rejected(RejectMessage)));
    }
    var code := checked.value;
    var depQuery := GetFlightsByDep(s, dep1, dep2, code);
    if depQuery.Failure? {
      return Failure(depQuery.error);
    }
    var arrQuery := GetFlightsByDest(depQuery.value.state, arr1, arr2, code);
    if arrQuery.Failure? {
      return Failure(arrQuery.error);
    }
    var shown := ShowFlights(code, depQuery.value.flights, arrQuery.value.flights, style);
    DirectionalCounts(depQuery.value.state.data.value.pilots, code);
    r := Success(Turn(arrQuery.value.state, depQuery.value.sources + arrQuery.value.sources, shown));
  }
}
