# vatsimpy core, modelled in Dafny

vatsimpy is a command-line tool. It asks for an airport ICAO code and prints
two text tables: the flights departing from that airport and the flights
arriving at it. The flights come from the VATSIM network's live-data JSON
document. This project models three parts of it:

- The data handler (`Vatsim` in `modules/vatsim.py`). It keeps one dataset
  in memory and a copy in a cache file. It decides when the data is stale
  and refetches it from the live endpoint, or from the bundled test data in
  local mode. After a network or HTTP error it switches to local mode for
  good. Its queries return all pilots, or the flights departing from or
  arriving at one airport.
- The text table (`Table` in `modules/table.py`). Rows are added in order.
  Every cell is padded to the width of the widest cell in the whole table.
  Dashed dividers as wide as the head line frame the head and the body.
- One turn of the dialog in `main.py`. The code is checked and upper-cased,
  both queries run, and two tables are built, rendered and counted.

Files:

- `wrappers.dfy`: `Option` and `Result`.
- `flights.dfy` (module `Flights`): the dataset shape and the directional
  filter.
- `vatsim.dfy` (module `VatsimData`): the handler as an immutable state
  with pure transitions.
- `table.dfy` (module `TableLayout`): the table layout and its rendering.
- `dialog.dfy` (module `Dialog`): the dialog step.

Every effect from outside is a parameter. An `Io` value holds three things
for one staleness check:

- the clock reading, in whole seconds;
- what the live endpoint answered (a dataset, an HTTP error, a URL error,
  or a body that is not JSON);
- what reading the test-data file produced (a dataset, file not found, or
  invalid JSON).

The cache file is part of the state (`CacheFile`), because the handler both
reads and writes it. Each transition also returns the sources it read, in
order (`LiveUrl`, `TestDataPath`, `CachedDataPath`). That is what makes
"local mode never touches the network" a statement about the model.

Two of the exceptions that escape the handler are modelled, and the model
returns them as `Failure`:

- `MissingData`: the `KeyError` raised when no dataset was ever loaded and
  the staleness check reads `general`.
- `MalformedResponse`: the `JSONDecodeError` raised when the live response
  body is not JSON. It is not among the caught exceptions (vatsim.py:198-215).

Neither exception is caught by `dialog` or `main`, so either one ends the
program. For example, a corrupt cache file leaves the data empty, and
`Init` then returns `Failure(MissingData)`.

## Model

| member | source | states |
|---|---|---|
| Flights.Matches | modules/vatsim.py:295-296 | a flight is selected when it has a plan and the plan's departure (or arrival) airport is exactly the code |
| Flights.Select | modules/vatsim.py:292-300 | every flight kept has a flight plan whose airport for the direction is the code, and no more flights are kept than there are pilots |
| Flights.SelectAppend | modules/vatsim.py:294-297 | filtering a concatenation is the concatenation of the filtered parts, so the kept flights stay in source order |
| Flights.SelectContents | modules/vatsim.py:324-327 | each matching flight is kept exactly as often as it occurs, and no other flight is kept |
| Flights.SelectExample | modules/vatsim.py:294-297 | a flight EGLL to EDDF is an EGLL departure and not an arrival; a flight without a plan is never kept |
| Flights.DirectionalCounts | main.py:82 | departures plus arrivals count every flight touching the airport once, and a flight from the airport to itself twice |
| VatsimData.IsOutdated | modules/vatsim.py:115-130 | data is outdated when more than `reload` minutes plus a 30-second delay have passed since `update`, in whole seconds |
| VatsimData.OutdatedInMinutes | modules/vatsim.py:111-130 | the whole-second test equals the source's comparison: minutes since `update` greater than `reload` plus half a minute |
| VatsimData.Adopt | modules/vatsim.py:176-187 | an adopted dataset is resident, the cache file holds it, and the mode is unchanged |
| VatsimData.ReadCache | modules/vatsim.py:163-174 | an existing cache file parses to exactly its dataset, or to a JSON error when it is corrupt |
| VatsimData.FetchLocal | modules/vatsim.py:151-187 | a parsed file becomes resident and is cached; a missing or invalid file leaves the whole state unchanged; the cache stays coherent |
| VatsimData.FailSafe | modules/vatsim.py:338-358 | local mode is on afterwards, only the test file is read; its data becomes resident and is cached when it parses, and otherwise only the mode changes |
| VatsimData.FetchNew | modules/vatsim.py:189-228 | a received dataset becomes resident and cached; HTTP and URL errors switch to local mode and load the test file, adopting and caching its data when it parses and changing nothing else otherwise; a non-JSON body fails, and nothing else does |
| VatsimData.CheckOutdated | modules/vatsim.py:104-149 | fresh data is a no-op that reads nothing; stale data is refetched from the live endpoint in remote mode and from the test file in local mode; empty data fails; local mode never reads the live endpoint |
| VatsimData.Checks | modules/vatsim.py:284-289 | no checks change nothing; any check on empty data fails; after a successful check data is resident |
| VatsimData.LocalModeIsPermanent | modules/vatsim.py:130-145 | from local mode, any run of checks stays in local mode and never reads the live endpoint |
| VatsimData.FailSafeIsOneWay | modules/vatsim.py:203-215 | an HTTP or URL error on a stale remote-mode check reads the live endpoint and then the test file, turns local mode on, and no later check reads the live endpoint |
| VatsimData.ChecksKeepCoherent | modules/vatsim.py:222-228 | every run of checks keeps the cache file equal to the resident dataset |
| VatsimData.LoadAtStartup | modules/vatsim.py:70-102 | an existing cache file is read first in either mode; without one, local mode reads the test file and remote mode the live endpoint |
| VatsimData.Init | modules/vatsim.py:20-61 | on success, data is resident and cached; the first source read is the cache file exactly when one exists, otherwise the test file in local mode or the live endpoint in remote mode; local mode never reads the live endpoint; a corrupt cache file fails; the result is the start-up load followed by one staleness check on the loaded state |
| VatsimData.InitChecksLoadedData | modules/vatsim.py:57-61 | after a successful start-up load, fresh data is kept and nothing more is read, while outdated data makes start-up read at least one more source |
| VatsimData.FreshCacheIsUsed | modules/vatsim.py:57-61 | a start-up with a fresh cached copy reads only the cache file and keeps its data unchanged |
| VatsimData.StaleCacheIsRefetched | modules/vatsim.py:130-136 | a start-up in remote mode with a stale cached copy reads the cache and then the live endpoint, and adopts the live data |
| VatsimData.CacheRoundTrip | modules/vatsim.py:230-247 | what a check writes to the cache file is exactly what the next start-up loads, while that data is fresh |
| VatsimData.GetFlights | modules/vatsim.py:256-270 | fails exactly when its staleness check fails; otherwise leaves the state and sources of that check and returns all pilots of the dataset then resident; fresh data is returned as it is |
| VatsimData.FlightsBy | modules/vatsim.py:284-300 | fails exactly when one of the two staleness checks fails; otherwise returns the filter of the checked dataset's pilots in source order, and the state and sources of both checks |
| VatsimData.GetFlightsByDep | modules/vatsim.py:272-300 | the flights whose plan departs from the code, in pilot order, after two staleness checks |
| VatsimData.GetFlightsByDest | modules/vatsim.py:302-330 | the flights whose plan arrives at the code, in pilot order, after two staleness checks |
| TableLayout.AddRow | modules/table.py:20-29 | the new row is last; the earlier rows, the title and the head are unchanged |
| TableLayout.Longest | modules/table.py:41 | no cell of the list is longer than the result, and some cell is exactly as long; an empty list has none |
| TableLayout.WidestFrom | modules/table.py:43-49 | fails exactly when some list is empty; otherwise an upper bound of every cell, reached by one of them or by the start value |
| TableLayout.WidestCell | modules/table.py:31-49 | fails exactly when the head or some row is empty; otherwise no cell of the table is wider, and some head or row cell is exactly that wide |
| TableLayout.Pad | modules/table.py:78-87 | a padded cell is `w` long, or the cell's own length when the cell is longer |
| TableLayout.PadContents | modules/table.py:78-87 | a padded cell begins with the cell and continues with spaces only |
| TableLayout.FormatRow | modules/table.py:51-97 | a row formats to the empty string exactly when it has no cells |
| TableLayout.RowLength | modules/table.py:73-94 | a row of `n` cells, none wider than `w`, formats to `n * (w + 3) + 1` characters, the last of which is the closing bar |
| TableLayout.CellSlot | modules/table.py:73-94 | the `k`-th cell occupies its own `w + 3`-character slot: a bar, a space, the padded cell and a space |
| TableLayout.CellsReadBack | modules/table.py:51-97 | two characters into its slot each cell can be read back whole, followed only by spaces up to the slot's end |
| TableLayout.Divider | modules/table.py:108-118 | the divider has one dash per character of the head line, and only dashes |
| TableLayout.RenderRows | modules/table.py:124-130 | appending a newline and a formatted row for every row joins the rows' lines, in order, below the head |
| TableLayout.RenderAt | modules/table.py:99-134 | the string is a newline, then the title, divider, head, divider, the rows and a closing divider joined by newlines, then a newline |
| TableLayout.Render | modules/table.py:99-134 | fails exactly when finding the widest cell fails; otherwise renders at the widest cell's width |
| TableLayout.AlignedLines | modules/table.py:99-134 | when every row has as many cells as the head, every line below the title is exactly as long as the divider, which is all dashes |
| Dialog.IsAlnum | main.py:41 | `isalnum`: at least one character, and every character an ASCII letter or digit |
| Dialog.ToUpper | main.py:44 | a lower-case letter becomes its capital; every other character is kept; the result is never lower-case |
| Dialog.Upper | main.py:44 | upper-casing keeps the length and upper-cases each character in place |
| Dialog.UpperIdempotent | main.py:44 | upper-casing twice is upper-casing once |
| Dialog.UpperKeepsAlnum | main.py:41-44 | a code is alphanumeric exactly when its upper-cased form is, and the upper-cased form has no lower-case letter |
| Dialog.ValidateIcao | main.py:41-44 | a code is accepted exactly when it is alphanumeric and four characters long; the accepted code is the input upper-cased: each lower-case letter becomes its capital, every other character is kept |
| Dialog.ValidateIcaoExamples | main.py:41-44 | `eg11` is accepted as `EG11` and `EGLL` as itself; `EGL` and `EG-L` are refused |
| Dialog.RowFor | main.py:68-75 | a departure row is the callsign and the planned destination; an arrival row is the callsign and the planned origin |
| Dialog.TwoCellRowsRender | main.py:68-79 | a table with a head and two-cell rows always has a widest cell, so rendering it cannot fail |
| Dialog.BuildTable | main.py:56-75 | the table has the given title and head and one row per flight, in query order: callsign, then the airport at the other end |
| Dialog.ShowFlights | main.py:55-85 | the departures table is titled `code DEPARTURES` with head `Flight, To`; the arrivals table is titled `code ARRIVALS` with head `Flight, From`; both are rendered; the total is the sum of the two counts |
| Dialog.DialogStep | main.py:37-92 | a refused code leaves the state unchanged, reads nothing and shows the refusal message; an accepted code is upper-cased and sent to both queries; a query failure is the turn's failure; on success the tables list exactly the queried flights; when both queries saw the same data, the total counts a flight from the airport to itself twice |

## Left out

- Network and file I/O, `json` parsing and `os.path.exists`. They are the `Io` oracles and the `CacheFile` state.
- Clock and timestamp parsing (`datetime.utcnow`, `strptime`). Times are whole seconds since an arbitrary epoch, so sub-second precision is not modelled.
- `reload` is an integer number of minutes here. A fractional interval in the document is not modelled.
- A crash forgets earlier cache writes: `Failure` carries no state. In the source a check can write a dataset to the cache file before a later check in the same query crashes, and the next start-up loads that file. The model does not say what the cache file holds after a failure.
- Writing the cache file is assumed to succeed. The source logs and ignores a `FileNotFoundError` from `open(..., 'w')` (vatsim.py:238-243). That error means the `cache/` directory is missing, so no cache file exists at all: no start-up ever finds a cache, and the cache file is never equal to the resident data.
- The other uncaught errors of the handler. `__fetch_new_data` catches only `HTTPError` and `URLError` (vatsim.py:203, 210), and `__fetch_local_data` only `FileNotFoundError` and `JSONDecodeError` (vatsim.py:168, 172). So a connection dropped while the live body is read (`ConnectionResetError`, `http.client.IncompleteRead`), a body that is not valid UTF-8, a local file that cannot be opened or decoded (`PermissionError`, `IsADirectoryError`, `UnicodeDecodeError`), and a cache write refused by the OS all escape and end the program without the fail-safe. The `Io` oracles have no outcome for them.
- Logging, and the `debug_mode` switch that only sets the log level.
- A dataset of the wrong shape: missing `pilots`, a missing `flight_plan` key, or an `update` string in another format. Its JSON is taken to have the v3 fields.
- An empty `flight_plan` object is treated as an absent plan. Python's truthiness test treats them the same way.
- FormatRow: does not model the generated `eval` code breaking on a cell that contains a quote or a backslash. Cells are formatted as the format string intends.
- Dialog.IsAlnum and Dialog.ToUpper: ASCII only. Python's `isalnum` and `upper` also accept and change non-ASCII letters.
- `print`, `input`, the endless `while True` loop, and the recursive re-prompt after a refused code. A turn returns what would be printed, and the caller loops. The "Loading traffic" line and the summary line are not built as strings; the summary's numbers are the table row counts and `total`.
- `modules/style.py`. The title colouring is the `style` parameter.
- `planned_destairport` and `planned_depairport` (main.py:70, 74): v3 pilot records have no such keys, so the source raises `KeyError` as soon as a query returns a flight. The model assumes the values exist, as the opaque flight fields `plannedDestAirport` and `plannedDepAirport`.
- The intro banner and the start-up messages of `main`.
