# CMA fuel data scraper — a Dafny model

The CMA fuel data scraper reads the table of participating retailers from the CMA
fuel-finder page. It fetches each retailer's JSON price feed, with a bounded number of
requests in flight and one deadline for the whole batch, and logs what each feed held.
The repository also has library code that flattens a feed into two line-delimited outputs:
one record per retailer and one record per station, whose non-null prices become top-level
members. The program's entry point (`Program.Main`) never calls that code, nor the
fetcher's `FetchAllRetailersAsync`: it runs its own copy of the batch loop, which only logs.
The model covers the library code as written. A static front end draws the stations of the
visible map area as markers with price badges, and lets the user filter them by retailer.

This project models these parts in Dafny:

- **`Models`** (`models.dfy`): the feed document (`RetailerDto` and its `Station` and
  `Location`) and the two output records. It also models what the default JSON
  serializer writes for each output record: the named members in order, nulls written as
  `null`, the ignored `Prices`, and the extension-data members.
- **`DataTransformer`** (`data_transformer.dfy`): `TransformRetailer` and
  `TransformStations`. This covers the copy of every field, the flattening of the optional
  location, and the filter that keeps only non-null prices for extension data.
- **`RetailerDataFetcher`** (`retailer_data_fetcher.dfy`): the fetch of one feed and
  `FetchAllRetailersAsync`.
  - The fetch is a decision over an HTTP exchange that is given as input. Outcomes are a
    blank URL, a non-absolute URL, a 404, another failure status, a timeout, a decoded
    document, or an exception that escapes.
  - `FetchAllRetailersAsync` runs the per-retailer tasks against a `SemaphoreSlim`, which
    is modelled as a class with a permit count.
- **`Program`** (`program.dfy`): the concurrency limit read from configuration, the request
  timeout and the batch deadline. It also covers the program's own copy of the fetch,
  which is proved to agree with the fetcher's.
- **`JsValues`**, **`HtmlEscape`**, **`StationMap`**, **`Pagination`** and **`MapPage`**
  (`js_values.dfy`, `html_escape.dfy`, `station_map.dfy`, `pagination.dfy`,
  `map_view.dfy`): the front end's JavaScript.
  - JavaScript values and truthiness.
  - `escapeHtml` and its inverse.
  - The `||` fallback chains that pick a station's coordinates, name and retailer.
  - The retailer filter and the price badges.
  - The cursor-paginated station download.
  - The page state: selected retailer, retailer cards with their `active` marks, last
    loaded stations and the markers on the map. It is a class whose methods are the click
    handler, the card rendering and the view load.

Floats (coordinates) and decimals (prices) are type parameters, because the program only
copies them. The network, the clock and the configuration are inputs: the response or
exception a request would give, whether the batch deadline fired while a task waited, the
API's page responses, and the integer `int.TryParse` produced.

## Model

| member | source | states |
|---|---|---|
| Models.SerializeRetailer | src/CMAFuelDataScraper/Models/RetailerOutput.cs:7-14 | a retailer line holds exactly the members `name`, `source_url`, `last_updated`, in that order, and no extension data |
| Models.RetailerRoundTrip | src/CMAFuelDataScraper/Models/RetailerOutput.cs:7-14 | reading a written retailer line back by member name gives the same record, including a null `last_updated` |
| Models.SerializeStation | src/CMAFuelDataScraper/Models/StationOutput.cs:7-32 | a station line holds the seven named members in declaration order; its extension members are exactly the extension data, or none when that is null (the values are fixed by `StationRoundTrip`) |
| Models.StationNameMembers | src/CMAFuelDataScraper/Models/StationOutput.cs:7-14 | the members `retailer_name`, `site_id` and `brand` of a written station line hold the record's values, null for a missing one |
| Models.StationAddressMembers | src/CMAFuelDataScraper/Models/StationOutput.cs:16-20 | the members `address` and `postcode` hold the record's values, null for a missing one |
| Models.StationCoordinateMembers | src/CMAFuelDataScraper/Models/StationOutput.cs:22-26 | the members `latitude` and `longitude` hold the record's coordinates, null for a missing one |
| Models.ParseStationMembers | src/CMAFuelDataScraper/Models/StationOutput.cs:7-32 | a line whose named members hold a record's values reads back as that record's fields, with prices null and the extension members as extension data |
| Models.StationRoundTrip | src/CMAFuelDataScraper/Models/StationOutput.cs:7-32 | reading a written station line back gives every named field unchanged, nulls included. The extension data comes back with the same entries (null when it had none), and the ignored prices come back null |
| Models.PricesNotSerialized | src/CMAFuelDataScraper/Models/StationOutput.cs:28-29 | the ignored `Prices` property has no effect on the written line |
| Models.StationKeysAreNamedPlusExtension | src/CMAFuelDataScraper/Models/StationOutput.cs:7-32 | the member names of a station line are the named members plus the extension-data keys, and each extension member carries its value |
| Models.Lookup | src/CMAFuelDataScraper/Models/RetailerOutput.cs:7-14 | reading a written line by member name: a member is found exactly when some member has that name, and its value is that of the first such member |
| Models.LookupFirst | src/CMAFuelDataScraper/Models/RetailerOutput.cs:7-14 | a member whose name occurs at no earlier position is found with its own value |
| Models.RetailerMembers | src/CMAFuelDataScraper/Models/RetailerOutput.cs:7-14 | the three members of a written retailer line hold the record's name, URL and stamp (null when absent) |
| DataTransformer.TransformRetailer | src/CMAFuelDataScraper/Services/DataTransformer.cs:7-15 | the retailer record takes name and URL from the table row and the last-update stamp from the feed |
| DataTransformer.RetailerLineReadsBack | src/CMAFuelDataScraper/Services/DataTransformer.cs:7-15 | the written retailer line reads back as the row's name and URL and the feed's stamp |
| DataTransformer.NonNullPrices | src/CMAFuelDataScraper/Services/DataTransformer.cs:38-43 | the extension data keeps a price key exactly when its price is present, with the same value, and adds no key |
| DataTransformer.NonNullPricesOfAllPresent | src/CMAFuelDataScraper/Services/DataTransformer.cs:40-42 | when no price is null, the extension data has the same keys and values as the prices |
| DataTransformer.NonNullPricesDropsOnlyNulls | src/CMAFuelDataScraper/Services/DataTransformer.cs:40-42 | filtering the prices and wrapping the result back gives the original prices exactly when none of them is null |
| DataTransformer.NullPriceDropped | src/CMAFuelDataScraper/Services/DataTransformer.cs:40-42 | prices `{E10: p, B7: null}` give extension data `{E10: p}` |
| DataTransformer.TransformStation | src/CMAFuelDataScraper/Services/DataTransformer.cs:26-43 | each field is copied; latitude and longitude are null exactly when the location is; prices are kept; extension data is null exactly when prices are null, and otherwise holds exactly the non-null prices |
| DataTransformer.TransformEach | src/CMAFuelDataScraper/Services/DataTransformer.cs:24-46 | one record per station, in the feed's order |
| DataTransformer.TransformStations | src/CMAFuelDataScraper/Services/DataTransformer.cs:17-47 | no records when the station list is absent; otherwise the i-th record is the i-th station's |
| DataTransformer.AbsentStationsLikeEmpty | src/CMAFuelDataScraper/Services/DataTransformer.cs:19-22 | an absent and an empty station list both give no records |
| DataTransformer.StationsBelongToRetailer | src/CMAFuelDataScraper/Services/DataTransformer.cs:28 | every station record names the retailer of the retailer record made from the same feed |
| DataTransformer.TransformEachAppend | src/CMAFuelDataScraper/Services/DataTransformer.cs:24-46 | the records of concatenated station lists are the concatenation of their records |
| DataTransformer.WrittenPriceMembers | src/CMAFuelDataScraper/Services/DataTransformer.cs:38-43 | a fuel code that is not a named member appears in the written station line exactly when its price is present and not null |
| RetailerDataFetcher.CatchInFetcher | src/CMAFuelDataScraper/Services/RetailerDataFetcher.cs:48-57 | HTTP errors and timeouts become `null` with a log line; every other exception propagates |
| RetailerDataFetcher.FetchRetailerData | src/CMAFuelDataScraper/Services/RetailerDataFetcher.cs:19-58 | a request is sent exactly for a non-blank absolute URL; a blank URL gives `null` silently and a relative one with a warning; 404 gives a warning and `null`; any other failure status gives an error and `null`; a document is returned only from a 2xx response that decoded to it; only exceptions other than HTTP errors and timeouts escape, from the request or from decoding |
| RetailerDataFetcher.MalformedBodyEscapesFetcher | src/CMAFuelDataScraper/Services/RetailerDataFetcher.cs:43-53 | a 2xx response with a malformed JSON body escapes the fetcher as the decoder's exception |
| RetailerDataFetcher.Semaphore.constructor | src/CMAFuelDataScraper/Services/RetailerDataFetcher.cs:64 | the gate starts with the configured number of free permits |
| RetailerDataFetcher.Semaphore.WaitAsync | src/CMAFuelDataScraper/Services/RetailerDataFetcher.cs:69 | a cancelled wait takes no permit; otherwise a free permit is taken, and with none free the caller waits; permits taken minus permits returned always equals the initial count minus the free count |
| RetailerDataFetcher.Semaphore.Release | src/CMAFuelDataScraper/Services/RetailerDataFetcher.cs:92 | a permit is returned and the invariant is kept |
| RetailerDataFetcher.HandlerReport | src/CMAFuelDataScraper/Services/RetailerDataFetcher.cs:70-89 | a null result is logged as a failed fetch; a document is logged with its station count (0 when the list is absent) and its stamp; a cancellation is logged as cancelled and any other exception as an error |
| RetailerDataFetcher.ItemOutcome | src/CMAFuelDataScraper/Services/RetailerDataFetcher.cs:67-94 | a task ends cancelled-while-waiting exactly when the deadline fired while it waited; otherwise one of the handler's log lines |
| RetailerDataFetcher.MalformedFeedLoggedNotRethrown | src/CMAFuelDataScraper/Services/RetailerDataFetcher.cs:86-89 | a malformed feed is logged as an error by the task and not rethrown |
| RetailerDataFetcher.RunItem | src/CMAFuelDataScraper/Services/RetailerDataFetcher.cs:67-94 | a task that got a permit returns it whatever happened (one taken, one returned, free count unchanged); a task cancelled while waiting neither takes nor returns one |
| RetailerDataFetcher.FetchAllRetailers | src/CMAFuelDataScraper/Services/RetailerDataFetcher.cs:60-99 | a negative limit, or a timeout `CancellationTokenSource` does not accept, throws `ArgumentOutOfRangeException` before any task starts. Otherwise: one report per retailer, in order; the gate ends with all permits free. With a limit of 0, a task the deadline cancels while it waits ends cancelled, and every other task keeps waiting, so the batch is still running. Otherwise `Task.WhenAll` throws a cancellation exactly when some task was cancelled while waiting, and completes exactly when none was |
| Program.RequestTimeoutShorterThanDeadline | src/CMAFuelDataScraper/Program.cs:19 | the 30-second request timeout is shorter than the 3-minute batch deadline (line 100) |
| Program.MaxParallelRequests | src/CMAFuelDataScraper/Program.cs:93-97 | the limit is at least 1: the configured value when it parsed and is positive, otherwise 5 |
| Program.FetchRetailerDataSync | src/CMAFuelDataScraper/Program.cs:135-173 | the program's own fetch returns the same result and sends a request in the same cases as the fetcher's, for every input |
| Program.SyncFailuresGiveNull | src/CMAFuelDataScraper/Program.cs:154-172 | a failure status or a timeout gives `null` after one request |
| HtmlEscape.EscapeChar | src/Frontend/assets/js/main.js:85 | a special character becomes a character reference starting with `&`; any other character is kept |
| HtmlEscape.EscapeHtml | src/Frontend/assets/js/main.js:83-86 | the result is empty exactly when the input is; no `<`, `>`, `"` or `'` remains |
| HtmlEscape.EscapeHtmlRoundTrip | src/Frontend/assets/js/main.js:83-86 | decoding the character references gives back the original string |
| HtmlEscape.EscapeKeepsPlainText | src/Frontend/assets/js/main.js:85 | a string with no special character is unchanged |
| HtmlEscape.UnescapeEscapeAll | src/Frontend/assets/js/main.js:85 | the character-by-character replacement is undone by decoding |
| StationMap.FirstTruthy | src/Frontend/assets/js/main.js:171 | a chain of `||` gives the truthy candidate that no earlier candidate precedes, wherever it stands, or the last operand when none is truthy |
| StationMap.StationRetailer | src/Frontend/assets/js/main.js:171 | a station's retailer is the first truthy of `retailer_name`, `retailer` and `group`, else the empty string |
| StationMap.Latitude | src/Frontend/assets/js/main.js:176 | latitude is the first truthy of `latitude` and `lat`, else the second element of `location` |
| StationMap.Longitude | src/Frontend/assets/js/main.js:177 | longitude is the first truthy of `longitude`, `lng` and `lon`, else the first element of `location` |
| StationMap.StationName | src/Frontend/assets/js/main.js:180 | the popup title is the first truthy of `name`, `station_name`, `address` and `id`, else `Station` |
| StationMap.LocationArrayIsLonLat | src/Frontend/assets/js/main.js:176-177 | a `location` array is read as longitude then latitude |
| StationMap.ZeroLongitudeCountsAsMissing | src/Frontend/assets/js/main.js:177-178 | a longitude of 0 is falsy and counts as missing |
| StationMap.KeepRetailer | src/Frontend/assets/js/main.js:169-173 | the filter keeps each station whose resolved retailer is exactly the selected id, with its multiplicity, and drops every other station |
| StationMap.FilterStations | src/Frontend/assets/js/main.js:169-173 | with no selection every station is kept; with a selection only the matching ones are |
| StationMap.PricedFuels | src/Frontend/assets/js/main.js:185-188 | the fuels that get a badge are exactly those whose price is neither null nor undefined |
| StationMap.PriceBadgesFollowFuelOrder | src/Frontend/assets/js/main.js:185-188 | the badges are E10, E5, B7, SDV in that order, each only when priced |
| StationMap.PriceBadges | src/Frontend/assets/js/main.js:184-188 | the badges are those of the priced fuels in the order E10, E5, B7, SDV; E10 and E5 are green, B7 and SDV dark |
| StationMap.StationMarker | src/Frontend/assets/js/main.js:176-196 | a station gets a marker exactly when neither coordinate is null or undefined; its popup says "No price data" exactly when no fuel is priced, and otherwise shows the price badges |
| StationMap.MarkersOf | src/Frontend/assets/js/main.js:175-198 | every marker comes from a station, and every station with coordinates has its marker (the exact list is fixed by `MarkersOfOne` and `MarkersOfAppend`) |
| StationMap.MarkersOfOne | src/Frontend/assets/js/main.js:175-197 | one station adds exactly its own marker, or nothing when it lacks a coordinate |
| StationMap.MarkersOfAppend | src/Frontend/assets/js/main.js:175-198 | the markers are added station by station in order: those of a list are the markers of its first part followed by those of the rest |
| StationMap.KeepRetailerCons | src/Frontend/assets/js/main.js:169-173 | the filter keeps a station first in the list exactly when it matches, followed by what it keeps of the rest |
| StationMap.KeepRetailerAppend | src/Frontend/assets/js/main.js:169-173 | the filter keeps the stations in their order: filtering a list gives the filtered first part followed by the filtered rest |
| StationMap.RenderStations | src/Frontend/assets/js/main.js:165-198 | the markers are exactly those of the stations that have coordinates and, when a retailer is selected, match it |
| StationMap.RenderStationsOne | src/Frontend/assets/js/main.js:169-197 | a single station puts exactly its own marker on the map when it has coordinates and matches the selection, and nothing otherwise |
| StationMap.RenderStationsAppend | src/Frontend/assets/js/main.js:165-198 | the map's markers follow the stations' order: those of a list are the markers of its first part followed by those of the rest |
| StationMap.RenderStationsCount | src/Frontend/assets/js/main.js:165-198 | the map holds exactly one marker per drawn station, no duplicates and none missing |
| Pagination.BoundsToBboxArray | src/Frontend/assets/js/main.js:116-119 | the box is a 4-element array that reads back as the same west, south, east and north bounds |
| Pagination.FirstStop | src/Frontend/assets/js/main.js:147-152 | the loop stops at the first response that failed or lacks a cursor or stations; every earlier one had both |
| Pagination.Requests | src/Frontend/assets/js/main.js:133-137 | the k-th request asks for the box with limit 1000 and the cursor of the response before it |
| Pagination.FetchAllPages | src/Frontend/assets/js/main.js:128-153 | the loop's result, requests and stations are those of the reference pagination over the responses |
| Pagination.LoadedIsConcatenation | src/Frontend/assets/js/main.js:139-152 | a completed load holds the pages' stations concatenated in request order; all pages but the last continued and the last stopped |
| Pagination.FailedStopsAtFailure | src/Frontend/assets/js/main.js:139-162 | a failed load ends at the first failed request, after pages that all continued |
| Pagination.CursorOnlyWhenPresent | src/Frontend/assets/js/main.js:135-137 | the first request carries no cursor; each later one carries the truthy cursor of the previous response |
| Pagination.AllStationsAppend | src/Frontend/assets/js/main.js:141 | the stations of consecutive runs of pages concatenate |
| MapPage.RetailerName | src/Frontend/assets/js/main.js:52 | a card's name is the first truthy of `name`, `title` and `retailer_name`, else `Unknown`; it is always truthy |
| MapPage.Toggle | src/Frontend/assets/js/main.js:64-70 | the All card clears the selection; the selected card deselects; any other card selects its retailer; the selection is never the empty id |
| MapPage.ClickTwice | src/Frontend/assets/js/main.js:64-70 | clicking a named card twice leaves it selected exactly when it was selected before |
| MapPage.RenderMarks | src/Frontend/assets/js/main.js:46-54 | when cards are rendered, All is active exactly when nothing is selected, and a named card exactly when its name is the selection |
| MapPage.ClickMarksAsWritten | src/Frontend/assets/js/main.js:74-76 | after a click, a card is active exactly when its id is not empty and equals the selection, so the All card never is |
| MapPage.AllCardNeverMarkedAsWritten | src/Frontend/assets/js/main.js:74-76 | as written, a click never marks the All card, although rendering marks it when nothing is selected |
| MapPage.AsWrittenDiffersOnlyOnAllCard | src/Frontend/assets/js/main.js:74-76 | the written and the intended marks agree on every named card |
| MapPage.ClickMarks | src/Frontend/assets/js/main.js:72-76 | with the corrected comparison, a card is active after a click exactly when its id equals the selection or, for the All card, when nothing is selected |
| MapPage.ClickMarksAgreeWithRender | src/Frontend/assets/js/main.js:46-76 | with the corrected comparison, a click marks the cards exactly as rendering them afresh would |
| MapPage.AtMostOneMarked | src/Frontend/assets/js/main.js:72-76 | with distinct card ids, at most one card is active after a click, as written |
| MapPage.BuildCards | src/Frontend/assets/js/main.js:43-59 | the cards are All followed by one card per retailer, whose escaped id attribute reads back as its name, marked for the current selection |
| MapPage.UpdateMarks | src/Frontend/assets/js/main.js:72-76 | clearing every mark and then marking the matching cards gives the click marks as written |
| MapPage.MapView.constructor | src/Frontend/assets/js/main.js:8-10 | the page starts with no selection, no cards, no stations and no markers |
| MapPage.MapView.RenderRetailerCards | src/Frontend/assets/js/main.js:38-59 | the cards are replaced and marked for the current selection; the selection, stations and markers are unchanged |
| MapPage.MapView.Click | src/Frontend/assets/js/main.js:63-79 | the selection is toggled, the cards are re-marked as written (never the All card), and the markers are redrawn for the new selection from the last stations |
| MapPage.MapView.LoadStationsForCurrentView | src/Frontend/assets/js/main.js:121-162 | a completed load replaces the last stations and redraws the markers; a failed one leaves both as they were; the map always shows the last stations' markers for the current selection |

## Left out

- Fetching and parsing the CMA page (`Program.cs:40-88`, `CmaFuelPageScraper.cs`) is left out because it is HTML extraction by a CSS selector. The model starts from the list of table rows. The `Retailer` record file is not part of this model; its two fields are taken from `Program.cs:81-85`.
- JSON decoding of a feed is left out. Its outcome is an input: a document, a JSON `null`, or an exception.
- `HttpClientFactory.cs` and the request headers are left out, because they only configure the HTTP client.
- `JsonLinesWriter.cs` is left out because it is file output. The model stops at the JSON object a record serializes to.
- Logging is left out. Only the severity and the kind of each log line are modelled, and message texts are not.
- Real concurrency is left out. `FetchAllRetailers` runs the tasks one after another, so it does not show the bound on requests in flight. With a limit of 0, a task that would wait forever is reported as still waiting, and the batch as still running.
- The batch deadline is not modelled as a timer. The `timeout` parameter of `FetchAllRetailersAsync` is replaced by three inputs: whether `CancellationTokenSource` accepts it; for each task, whether the deadline fired while it waited; and, for a deadline that fires during a request, that request's exception.
- `FetchAllRetailers`: the bounds on the timeout that `CancellationTokenSource` accepts are not modelled. They belong to the .NET runtime, so the model takes whether the timeout is accepted as an input.
- The wiring of the library code into the program is left out because the source has none. `Program.Main` calls neither `DataTransformer`, `JsonLinesWriter` nor `FetchAllRetailersAsync`, so the flattened outputs are never produced by the entry point as written.
- `Program.Main`'s per-retailer lambda (`Program.cs:102-128`) is left out because it has the same shape as the one in `FetchAllRetailersAsync`. Only its fetch, `FetchRetailerDataSync`, is modelled separately.
- `int.TryParse` on configuration text is left out. Its result is an input.
- `SemaphoreSlim` throwing `SemaphoreFullException` is left out, because every release in the source follows a successful wait.
- Extension-data keys that collide with a named member (for example a fuel code `"brand"`) are left out. The serializer would write the name twice.
- The order of extension-data members is left out, because it is the dictionary's order.
- `Models.ParseStation` reads a station line back the way the serializer's reader would, without `[JsonIgnore]` prices. An extension-data dictionary that was empty is written with no members, so it reads back as null.
- Floating-point values are not modelled. Coordinates and prices are only copied.
- `parseFloat` of marker coordinates is left out, along with the Leaflet layer, `fitBounds`, the move-end debounce and status messages. A marker is the coordinates and popup handed to Leaflet.
- `StationMap.StationMarker` holds the values placed in the popup, not its HTML text. Names are escaped there with `escapeHtml`, whose properties are proved separately.
- `escapeHtml` on non-string values (`String(s)`) is left out. The model escapes strings.
- `MapPage.MapView.RenderRetailerCards` takes the resolved names as strings, so a non-string name (for example a number) is not modelled. `loadRetailers` is left out because it only passes `data || []` to the card rendering and sets status messages.
- Null entries in a station array are left out. The model's stations are objects.
- `Pagination.FetchAllPages` is given a finite list of responses. If the list runs out while the server still returns cursors, the result is `Unfinished`, a case the browser would never reach.

## Findings

| source | as written | input that shows it | evidently intended | confidence | as-written member | corrected member |
|---|---|---|---|---|---|---|
| src/Frontend/assets/js/main.js:74-76 | after a click, a card is marked when its id (the All card's empty id read as `null`) is strictly equal to the selection or the empty string, so the All card can never match | click the All card (or the selected card): nothing is selected, yet no card is marked, while rendering the cards marks All | the All card is active exactly when nothing is selected, as rendering does at line 46 | medium (not executed) | MapPage.AllCardNeverMarkedAsWritten | MapPage.ClickMarksAgreeWithRender |
