/** The live-data document the data handler keeps in memory, and the
    directional filters `get_flights_by_dep` / `get_flights_by_dest` run over
    its `pilots` list. */
module Flights {
  import opened Wrappers

  /** The filed route of a flight: ICAO codes of its two airports. */
  datatype FlightPlan = FlightPlan(departure: string, arrival: string)

  /** One entry of `pilots`. A flight without a filed plan carries `None`.
      `plannedDestAirport` and `plannedDepAirport` are the values the dialog
      puts beside the callsign in a table row; they are opaque here. */
  datatype Flight = Flight(
    callsign: string,
    flightPlan: Option<FlightPlan>,
    plannedDestAirport: string,
    plannedDepAirport: string)

  /** The `general` record: `update` is the server's timestamp, taken as
      whole seconds, and `reload` the declared refresh interval in minutes. */
  datatype General = General(update: int, reload: int)

  datatype Dataset = Dataset(general: General, pilots: seq<Flight>)

  /** Which airport of a flight plan a query looks at. */
  datatype Direction = Departure | Arrival

  function Airport(plan: FlightPlan, dir: Direction): string {
    match dir
    case Departure => plan.departure
    case Arrival => plan.arrival
  }

  /** A flight is selected when it has a plan and that plan's airport for
      `dir` is exactly `icao` (case-sensitive). */
  predicate Matches(f: Flight, icao: string, dir: Direction) {
    f.flightPlan.Some? && Airport(f.flightPlan.value, dir) == icao
  }

  /** The flights of `pilots` that match, in their original order. */
  function Select(pilots: seq<Flight>, icao: string, dir: Direction): (r: seq<Flight>)
    ensures |r| <= |pilots|
    ensures forall i :: 0 <= i < |r| ==> Matches(r[i], icao, dir)
    decreases |pilots|
  {
    if pilots == [] then []
    else
      var init := pilots[..|pilots| - 1];
      var last := pilots[|pilots| - 1];
      var rest := Select(init, icao, dir);
      if Matches(last, icao, dir) then rest + [last] else rest
  }

  /** Filtering distributes over concatenation: together with the
      one-element case this says the result keeps the source order. */
  lemma {:induction false} SelectAppend(a: seq<Flight>, b: seq<Flight>, icao: string, dir: Direction)
    ensures Select(a + b, icao, dir) == Select(a, icao, dir) + Select(b, icao, dir)
    decreases |b|
  {
    if b == [] {
      assert a + b == a;
    } else {
      var init := b[..|b| - 1];
      var last := b[|b| - 1];
      assert (a + b)[..|a + b| - 1] == a + init;
      assert (a + b)[|a + b| - 1] == last;
      SelectAppend(a, init, icao, dir);
      var step := if Matches(last, icao, dir) then [last] else [];
      assert Select(b, icao, dir) == Select(init, icao, dir) + step;
      assert Select(a + b, icao, dir) == Select(a + init, icao, dir) + step;
      assert Select(a, icao, dir) + (Select(init, icao, dir) + step)
          == (Select(a, icao, dir) + Select(init, icao, dir)) + step;
    }
  }

  /** Every matching flight is kept as often as it occurs, and nothing
      else is kept. */
  lemma {:induction false} SelectContents(pilots: seq<Flight>, icao: string, dir: Direction)
    ensures forall f :: multiset(Select(pilots, icao, dir))[f]
                     == if Matches(f, icao, dir) then multiset(pilots)[f] else 0
    decreases |pilots|
  {
    if pilots != [] {
      var init := pilots[..|pilots| - 1];
      var last := pilots[|pilots| - 1];
      assert pilots == init + [last];
      SelectContents(init, icao, dir);
    }
  }

  /** A one-element list is kept exactly when its flight matches. */
  lemma SelectSingle(f: Flight, icao: string, dir: Direction)
    ensures Select([f], icao, dir) == if Matches(f, icao, dir) then [f] else []
  {
    assert [f][..0] == [];
  }

  /** Number of flights that depart from or arrive at `icao`. */
  ghost function InvolvedCount(pilots: seq<Flight>, icao: string): nat
    decreases |pilots|
  {
    if pilots == [] then 0
    else
      var last := pilots[|pilots| - 1];
      InvolvedCount(pilots[..|pilots| - 1], icao)
        + (if Matches(last, icao, Departure) || Matches(last, icao, Arrival) then 1 else 0)
  }

  /** Number of flights that both depart from and arrive at `icao`. */
  ghost function RoundTripCount(pilots: seq<Flight>, icao: string): nat
    decreases |pilots|
  {
    if pilots == [] then 0
    else
      var last := pilots[|pilots| - 1];
      RoundTripCount(pilots[..|pilots| - 1], icao)
        + (if Matches(last, icao, Departure) && Matches(last, icao, Arrival) then 1 else 0)
  }

  /** The two directional result lists together count every involved
      flight once, and a flight whose departure and arrival are both `icao`
      a second time. */
  lemma {:induction false} DirectionalCounts(pilots: seq<Flight>, icao: string)
    ensures |Select(pilots, icao, Departure)| + |Select(pilots, icao, Arrival)|
         == InvolvedCount(pilots, icao) + RoundTripCount(pilots, icao)
    decreases |pilots|
  {
    if pilots != [] {
      DirectionalCounts(pilots[..|pilots| - 1], icao);
    }
  }

  /** A planned flight EGLL to EDDF next to a flight without a plan. */
  lemma SelectExample()
    ensures
      var baw := Flight("BAW123", Some(FlightPlan("EGLL", "EDDF")), "EDDF", "EGLL");
      var dlh := Flight("DLH456", None, "", "");
      && Select([baw, dlh], "EGLL", Departure) == [baw]
      && Select([baw, dlh], "EGLL", Arrival) == []
      && Select([baw, dlh], "ZZZZ", Departure) == []
  {
    var baw := Flight("BAW123", Some(FlightPlan("EGLL", "EDDF")), "EDDF", "EGLL");
    var dlh := Flight("DLH456", None, "", "");
    assert [baw, dlh][..1] == [baw];
    assert [baw][..0] == [];
  }
}
