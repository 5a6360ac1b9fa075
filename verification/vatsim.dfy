/** The data handler of modules/vatsim.py as an immutable state plus pure
    transitions. Every outside effect is an oracle value handed in by the
    caller: the clock reading, what the live endpoint answered, and what
    reading the bundled test-data file produced. The cache file is part of
    the state, because the handler both reads and writes it. */
module VatsimData {
  import opened Wrappers
  import opened Flights

  /** The exceptions the handler lets escape to its caller. */
  datatype Crash =
    | MissingData        // KeyError: the staleness check reads `general` of a dataset never loaded
    | MalformedResponse  // JSONDecodeError on the live response body, which is not caught

  /** What one request to the live endpoint produced. */
  datatype RemoteOutcome =
    | Received(dataset: Dataset)
    | HttpError
    | UrlError
    | UnparsableBody

  /** What opening and parsing one local JSON file produced. */
  datatype FileOutcome =
    | Parsed(dataset: Dataset)
    | NotFound
    | InvalidJson

  /** The persisted cache file. */
  datatype CacheFile =
    | NoCacheFile
    | CacheHolds(dataset: Dataset)
    | CacheCorrupt

  /** The world as one staleness check (or the start-up load) sees it. */
  datatype Io = Io(now: int, remote: RemoteOutcome, testFile: FileOutcome)

  /** The three places the handler reads data from. */
  datatype Source = LiveUrl | TestDataPath | CachedDataPath

  /** The handler's state: the resident dataset (`None` stands for the
      initial empty dict), the local-mode flag and the cache file. */
  datatype Vatsim = Vatsim(data: Option<Dataset>, localMode: bool, cache: CacheFile)

  /** A new state together with the sources read on the way, in order. */
  datatype Step = Step(state: Vatsim, sources: seq<Source>)

  /** A state together with the flights a query returned. */
  datatype Query = Query(state: Vatsim, sources: seq<Source>, flights: seq<Flight>)

  /** Half a minute added to the server's reload interval, in seconds. */
  const UpdateDelaySeconds := 30

  /** Once a dataset is resident, the cache file holds that same dataset. */
  predicate Coherent(s: Vatsim) {
    s.data.Some? ==> s.cache == CacheHolds(s.data.value)
  }

  /** The data is outdated when more than `reload` minutes plus the delay
      have passed since the server's `update` timestamp. */
  predicate IsOutdated(d: Dataset, now: int) {
    now - d.general.update > d.general.reload * 60 + UpdateDelaySeconds
  }

  /** The same test as the source writes it: the difference in minutes
      against the interval plus half a minute. */
  lemma OutdatedInMinutes(d: Dataset, now: int)
    ensures IsOutdated(d, now)
        <==> (now - d.general.update) as real / 60.0 > d.general.reload as real + 0.5
  {
  }

  /** Successful fetch: the parsed dataset becomes resident and is written
      to the cache file. */
  function Adopt(s: Vatsim, d: Dataset): (r: Vatsim)
    ensures r.data == Some(d) && r.localMode == s.localMode
    ensures Coherent(r)
  {
    s.(data := Some(d), cache := CacheHolds(d))
  }

  /** Opening an existing cache file yields its contents, or a parse error. */
  function ReadCache(c: CacheFile): (r: FileOutcome)
    requires c != NoCacheFile
    ensures r.Parsed? <==> c.CacheHolds?
    ensures r.Parsed? ==> r.dataset == c.dataset
    ensures !r.Parsed? ==> r == InvalidJson
  {
    match c
    case CacheHolds(d) => Parsed(d)
    case CacheCorrupt => InvalidJson
  }

  /** `__fetch_local_data`: adopt the parsed file, or leave everything as it
      was when the file is missing or not JSON. */
  function FetchLocal(s: Vatsim, file: FileOutcome): (r: Vatsim)
    ensures file.Parsed? ==> r.data == Some(file.dataset) && r.cache == CacheHolds(file.dataset)
    ensures !file.Parsed? ==> r == s
    ensures r.localMode == s.localMode
    ensures Coherent(s) ==> Coherent(r)
  {
    match file
    case Parsed(d) => Adopt(s, d)
    case NotFound => s
    case InvalidJson => s
  }

  /** `__fail_safe`: switch to local mode for good, then load the test data. */
  function FailSafe(s: Vatsim, testFile: FileOutcome): (r: Step)
    ensures r.state.localMode
    ensures r.sources == [TestDataPath]
    ensures testFile.Parsed? ==> r.state.data == Some(testFile.dataset)
    ensures testFile.Parsed? ==> r.state.cache == CacheHolds(testFile.dataset)
    ensures !testFile.Parsed? ==> r.state == s.(localMode := true)
    ensures Coherent(s) ==> Coherent(r.state)
  {
    Step(FetchLocal(s.(localMode := true), testFile), [TestDataPath])
  }

  /** `__fetch_new_data`: request the live endpoint. HTTP and URL errors run
      the fail-safe; a body that is not JSON escapes as an exception. */
  function FetchNew(s: Vatsim, io: Io): (r: Result<Step, Crash>)
    ensures io.remote.Received? ==>
              r.Success? && r.value.sources == [LiveUrl]
              && r.value.state.data == Some(io.remote.dataset)
              && r.value.state.cache == CacheHolds(io.remote.dataset)
              && r.value.state.localMode == s.localMode
    ensures (io.remote.HttpError? || io.remote.UrlError?) ==>
              r.Success? && r.value.state.localMode
              && r.value.sources == [LiveUrl, TestDataPath]
              && r.value.state == FailSafe(s, io.testFile).state
    ensures (io.remote.HttpError? || io.remote.UrlError?) && io.testFile.Parsed? ==>
              r.Success? && r.value.state.data == Some(io.testFile.dataset)
              && r.value.state.cache == CacheHolds(io.testFile.dataset)
    ensures (io.remote.HttpError? || io.remote.UrlError?) && !io.testFile.Parsed? ==>
              r == Success(Step(s.(localMode := true), [LiveUrl, TestDataPath]))
    ensures io.remote.UnparsableBody? <==> r == Failure(MalformedResponse)
    ensures r.Success? ==> r.value.sources[0] == LiveUrl
    ensures r.Success? && s.localMode ==> r.value.state.localMode
    ensures r.Success? && Coherent(s) ==> Coherent(r.value.state)
  {
    match io.remote
    case Received(d) => Success(Step(Adopt(s, d), [LiveUrl]))
    case HttpError =>
      var safe := FailSafe(s, io.testFile);
      Success(Step(safe.state, [LiveUrl] + safe.sources))
    case UrlError =>
      var safe := FailSafe(s, io.testFile);
      Success(Step(safe.state, [LiveUrl] + safe.sources))
    case UnparsableBody => Failure(MalformedResponse)
  }

  /** `__is_data_outdated`: refetch exactly when the resident data is
      outdated, from the live endpoint in remote mode and from the test-data
      file in local mode. */
  function CheckOutdated(s: Vatsim, io: Io): (r: Result<Step, Crash>)
    ensures s.data.None? ==> r == Failure(MissingData)
    ensures s.data.Some? && !IsOutdated(s.data.value, io.now) ==> r == Success(Step(s, []))
    ensures s.data.Some? && IsOutdated(s.data.value, io.now) && r.Success? ==> r.value.sources != []
    ensures s.data.Some? && IsOutdated(s.data.value, io.now) && !s.localMode ==>
              r == FetchNew(s, io)
    ensures s.data.Some? && IsOutdated(s.data.value, io.now) && s.localMode ==>
              r == Success(Step(FetchLocal(s, io.testFile), [TestDataPath]))
    ensures r.Failure? ==> s.data.None? || (!s.localMode && io.remote.UnparsableBody?)
    ensures r.Success? ==> r.value.state.data.Some?
    ensures r.Success? && s.localMode ==> r.value.state.localMode && LiveUrl !in r.value.sources
    ensures r.Success? && Coherent(s) ==> Coherent(r.value.state)
  {
    match s.data
    case None => Failure(MissingData)
    case Some(d) =>
      if IsOutdated(d, io.now) && !s.localMode then
        FetchNew(s, io)
      else if IsOutdated(d, io.now) && s.localMode then
        Success(Step(FetchLocal(s, io.testFile), [TestDataPath]))
      else
        Success(Step(s, []))
  }

  /** Several staleness checks in a row, one per oracle, stopping at the
      first exception. */
  function Checks(s: Vatsim, ios: seq<Io>): (r: Result<Step, Crash>)
    ensures ios == [] ==> r == Success(Step(s, []))
    ensures ios != [] && s.data.None? ==> r == Failure(MissingData)
    ensures r.Success? && (s.data.Some? || ios != []) ==> r.value.state.data.Some?
    decreases |ios|
  {
    if ios == [] then Success(Step(s, []))
    else
      match CheckOutdated(s, ios[0])
      case Failure(e) => Failure(e)
      case Success(first) =>
        match Checks(first.state, ios[1..])
        case Failure(e) => Failure(e)
        case Success(rest) => Success(Step(rest.state, first.sources + rest.sources))
  }

  /** Local mode, once on, stays on, and no later check ever sources the live
      endpoint. */
  lemma {:induction false} LocalModeIsPermanent(s: Vatsim, ios: seq<Io>)
    requires s.localMode
    ensures Checks(s, ios).Success? ==>
              Checks(s, ios).value.state.localMode && LiveUrl !in Checks(s, ios).value.sources
    decreases |ios|
  {
    if ios != [] {
      var c := CheckOutdated(s, ios[0]);
      if c.Success? {
        LocalModeIsPermanent(c.value.state, ios[1..]);
      }
    }
  }

  /** A connection or HTTP error during an outdated check in remote mode
      turns local mode on; from then on the live endpoint is never read. */
  lemma FailSafeIsOneWay(s: Vatsim, io: Io, later: seq<Io>)
    requires s.data.Some? && IsOutdated(s.data.value, io.now) && !s.localMode
    requires io.remote.HttpError? || io.remote.UrlError?
    ensures CheckOutdated(s, io).Success?
    ensures CheckOutdated(s, io).value.sources == [LiveUrl, TestDataPath]
    ensures CheckOutdated(s, io).value.state.localMode
    ensures var next := CheckOutdated(s, io).value.state;
            Checks(next, later).Success? ==> LiveUrl !in Checks(next, later).value.sources
  {
    LocalModeIsPermanent(CheckOutdated(s, io).value.state, later);
  }

  /** Every run of checks keeps the cache file equal to the resident data. */
  lemma {:induction false} ChecksKeepCoherent(s: Vatsim, ios: seq<Io>)
    requires Coherent(s)
    ensures Checks(s, ios).Success? ==> Coherent(Checks(s, ios).value.state)
    decreases |ios|
  {
    if ios != [] {
      var c := CheckOutdated(s, ios[0]);
      if c.Success? {
        ChecksKeepCoherent(c.value.state, ios[1..]);
      }
    }
  }

  /** `__is_data_cached`: load the cache file when there is one, whatever
      the mode; otherwise the test data in local mode, the live data else. */
  function LoadAtStartup(s: Vatsim, io: Io): (r: Result<Step, Crash>)
    ensures s.cache != NoCacheFile ==>
              r == Success(Step(FetchLocal(s, ReadCache(s.cache)), [CachedDataPath]))
    ensures s.cache == NoCacheFile && s.localMode ==>
              r == Success(Step(FetchLocal(s, io.testFile), [TestDataPath]))
    ensures s.cache == NoCacheFile && !s.localMode ==> r == FetchNew(s, io)
    ensures r.Success? ==> r.value.sources != []
    ensures r.Success? && s.localMode ==> r.value.state.localMode
    ensures r.Success? && Coherent(s) ==> Coherent(r.value.state)
  {
    if s.cache != NoCacheFile then
      Success(Step(FetchLocal(s, ReadCache(s.cache)), [CachedDataPath]))
    else if s.localMode then
      Success(Step(FetchLocal(s, io.testFile), [TestDataPath]))
    else
      FetchNew(s, io)
  }

  /** `Vatsim.__init__`: start empty, load at start-up with the first oracle,
      then run one staleness check with the second. */
  function Init(localMode: bool, cache: CacheFile, boot: Io, check: Io): (r: Result<Step, Crash>)
    ensures r.Success? ==> r.value.state.data.Some? && Coherent(r.value.state)
    ensures r.Success? ==> r.value.sources != []
    ensures r.Success? ==> (r.value.sources[0] == CachedDataPath <==> cache != NoCacheFile)
    ensures r.Success? && cache == NoCacheFile && localMode ==> r.value.sources[0] == TestDataPath
    ensures r.Success? && cache == NoCacheFile && !localMode ==> r.value.sources[0] == LiveUrl
    ensures r.Success? && localMode ==> r.value.state.localMode && LiveUrl !in r.value.sources
    ensures cache == CacheCorrupt ==> r == Failure(MissingData)
    ensures var load := LoadAtStartup(Vatsim(None, localMode, cache), boot);
            && (load.Failure? ==> r == Failure(load.error))
            && (load.Success? ==>
                  var checked := CheckOutdated(load.value.state, check);
                  && (r.Failure? <==> checked.Failure?)
                  && (r.Success? ==>
                        r.value.state == checked.value.state
                        && r.value.sources == load.value.sources + checked.value.sources))
  {
    var s := Vatsim(None, localMode, cache);
    match LoadAtStartup(s, boot)
    case Failure(e) => Failure(e)
    case Success(loaded) =>
      match CheckOutdated(loaded.state, check)
      case Failure(e) => Failure(e)
      case Success(checked) => Success(Step(checked.state, loaded.sources + checked.sources))
  }

  /** The start-up load is always followed by a staleness check: data that
      is still fresh is kept and nothing more is read, while outdated data
      makes the start-up read at least one more source. */
  lemma InitChecksLoadedData(localMode: bool, cache: CacheFile, boot: Io, check: Io)
    requires LoadAtStartup(Vatsim(None, localMode, cache), boot).Success?
    ensures var loaded := LoadAtStartup(Vatsim(None, localMode, cache), boot).value;
            var r := Init(localMode, cache, boot, check);
            && (loaded.state.data.Some? && !IsOutdated(loaded.state.data.value, check.now) ==>
                  r == Success(loaded))
            && (loaded.state.data.Some? && IsOutdated(loaded.state.data.value, check.now) && r.Success? ==>
                  |r.value.sources| > |loaded.sources|)
  {
    var loaded := LoadAtStartup(Vatsim(None, localMode, cache), boot).value;
    if loaded.state.data.Some? && !IsOutdated(loaded.state.data.value, check.now) {
      assert CheckOutdated(loaded.state, check) == Success(Step(loaded.state, []));
      assert loaded.sources + [] == loaded.sources;
    }
  }

  /** A cached copy that is still fresh is used as it is: nothing else is
      read and nothing changes. */
  lemma FreshCacheIsUsed(localMode: bool, d: Dataset, boot: Io, check: Io)
    requires !IsOutdated(d, check.now)
    ensures Init(localMode, CacheHolds(d), boot, check)
         == Success(Step(Vatsim(Some(d), localMode, CacheHolds(d)), [CachedDataPath]))
  {
    var loaded := Vatsim(Some(d), localMode, CacheHolds(d));
    assert LoadAtStartup(Vatsim(None, localMode, CacheHolds(d)), boot)
        == Success(Step(loaded, [CachedDataPath]));
    assert CheckOutdated(loaded, check) == Success(Step(loaded, []));
    assert [CachedDataPath] + [] == [CachedDataPath];
  }

  /** A cached copy that has gone stale is replaced at once: in remote mode
      the live endpoint is read right after the cache file. */
  lemma StaleCacheIsRefetched(d: Dataset, boot: Io, check: Io)
    requires IsOutdated(d, check.now)
    requires check.remote.Received?
    ensures Init(false, CacheHolds(d), boot, check)
         == Success(Step(Adopt(Vatsim(Some(d), false, CacheHolds(d)), check.remote.dataset),
                         [CachedDataPath, LiveUrl]))
  {
    var loaded := Vatsim(Some(d), false, CacheHolds(d));
    assert LoadAtStartup(Vatsim(None, false, CacheHolds(d)), boot)
        == Success(Step(loaded, [CachedDataPath]));
    assert CheckOutdated(loaded, check)
        == Success(Step(Adopt(loaded, check.remote.dataset), [LiveUrl]));
    assert [CachedDataPath] + [LiveUrl] == [CachedDataPath, LiveUrl];
  }

  /** What one process writes to the cache is what the next one loads. */
  lemma CacheRoundTrip(s: Vatsim, io: Io, localMode: bool, boot: Io, check: Io)
    requires Coherent(s)
    requires CheckOutdated(s, io).Success?
    requires !IsOutdated(CheckOutdated(s, io).value.state.data.value, check.now)
    ensures var written := CheckOutdated(s, io).value.state;
            Init(localMode, written.cache, boot, check).Success?
            && Init(localMode, written.cache, boot, check).value.state.data == written.data
  {
    var written := CheckOutdated(s, io).value.state;
    FreshCacheIsUsed(localMode, written.data.value, boot, check);
  }

  /** `get_flights`: run a staleness check, then hand out all pilots. */
  function GetFlights(s: Vatsim, io: Io): (r: Result<Query, Crash>)
    ensures s.data.None? ==> r == Failure(MissingData)
    ensures s.data.Some? && !IsOutdated(s.data.value, io.now) ==>
              r == Success(Query(s, [], s.data.value.pilots))
    ensures r.Failure? <==> CheckOutdated(s, io).Failure?
    ensures r.Success? ==> r.value.state == CheckOutdated(s, io).value.state
                           && r.value.sources == CheckOutdated(s, io).value.sources
    ensures r.Success? ==> r.value.state.data.Some?
                           && r.value.flights == r.value.state.data.value.pilots
  {
    match CheckOutdated(s, io)
    case Failure(e) => Failure(e)
    case Success(checked) => Success(Query(checked.state, checked.sources, checked.state.data.value.pilots))
  }

  /** The body shared by `get_flights_by_dep` and `get_flights_by_dest`:
      a staleness check of its own, a second one inside `get_flights`, then
      one pass over the pilots keeping the flights that match. */
  method FlightsBy(s: Vatsim, first: Io, second: Io, icao: string, dir: Direction)
    returns (r: Result<Query, Crash>)
    ensures r.Failure? <==> Checks(s, [first, second]).Failure?
    ensures r.Failure? ==> r.error == Checks(s, [first, second]).error
    ensures r.Success? ==>
              var c := Checks(s, [first, second]).value;
              && r.value.state == c.state
              && r.value.sources == c.sources
              && r.value.flights == Select(c.state.data.value.pilots, icao, dir)
  {
    assert [first, second][1..] == [second];
    assert [second][1..] == [];
    var checked := CheckOutdated(s, first);
    if checked.Failure? {
      return Failure(checked.error);
    }
    var all := GetFlights(checked.value.state, second);
    if all.Failure? {
      return Failure(all.error);
    }
    var flights := all.value.flights;
    var found: seq<Flight> := [];
    var i := 0;
    while i < |flights|
      invariant 0 <= i <= |flights|
      invariant found == Select(flights[..i], icao, dir)
    {
      var flight := flights[i];
      if flight.flightPlan.Some? && Airport(flight.flightPlan.value, dir) == icao {
        found := found + [flight];
      }
      assert flights[..i + 1][..i] == flights[..i];
      i := i + 1;
    }
    assert flights[..|flights|] == flights;
    r := Success(Query(all.value.state, checked.value.sources + all.value.sources, found));
  }

  /** `get_flights_by_dep`: the planned flights departing from `icao`. */
  method GetFlightsByDep(s: Vatsim, first: Io, second: Io, icao: string)
    returns (r: Result<Query, Crash>)
    ensures r.Failure? <==> Checks(s, [first, second]).Failure?
    ensures r.Failure? ==> r.error == Checks(s, [first, second]).error
    ensures r.Success? ==>
              && r.value.state == Checks(s, [first, second]).value.state
              && r.value.sources == Checks(s, [first, second]).value.sources
              && r.value.flights == Select(r.value.state.data.value.pilots, icao, Departure)
              && forall i :: 0 <= i < |r.value.flights| ==>
                   r.value.flights[i].flightPlan.Some?
                   && r.value.flights[i].flightPlan.value.departure == icao
  {
    r := FlightsBy(s, first, second, icao, Departure);
  }

  /** `get_flights_by_dest`: the planned flights arriving at `icao`. */
  method GetFlightsByDest(s: Vatsim, first: Io, second: Io, icao: string)
    returns (r: Result<Query, Crash>)
    ensures r.Failure? <==> Checks(s, [first, second]).Failure?
    ensures r.Failure? ==> r.error == Checks(s, [first, second]).error
    ensures r.Success? ==>
              && r.value.state == Checks(s, [first, second]).value.state
              && r.value.sources == Checks(s, [first, second]).value.sources
              && r.value.flights == Select(r.value.state.data.value.pilots, icao, Arrival)
              && forall i :: 0 <= i < |r.value.flights| ==>
                   r.value.flights[i].flightPlan.Some?
                   && r.value.flights[i].flightPlan.value.arrival == icao
  {
    r := FlightsBy(s, first, second, icao, Arrival);
  }
}
