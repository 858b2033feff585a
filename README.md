# Price-tracker plot pipeline in Dafny

The price tracker records one price observation per tracked item and
publishes a chart of every item's history as an HTML page. The model covers
four programs:

- **Ingest handler** (`cmd/handler/main.go`). An AWS Lambda triggered by a tracker.
  1. It reads the embedded app config.
  2. It unwraps `responsePayload` and decodes the observation `{name, date, value}`.
  3. It creates the item's DynamoDB table, keyed by the string attribute `date`. An "already exists" error found anywhere in the error chain counts as success.
  4. It upserts the observation.
  5. It issues one Scan of the table and requests no further page.
  6. It decodes every item strictly.
  7. It sorts the entries by their timestamp in layout `2006-01-02T15:04`.
  8. It builds a line chart of dates against values and uploads its HTML as `<name>.html`, with Content-Type `text/html`, into the configured bucket.
- **Legacy ingest handler** (`lambdas/handler/main.go`). It ignores its event and writes no item to the table. It works on the fixed table `item1`, decodes items leniently and charts them in scan order. It uploads `item1.html` into `price-tracker-plots` with no content type. It tolerates only a CreateTable error *equal* to `dynamodb.ErrResourceInUseException`. The model reads that name as a bare ResourceInUse sentinel, which never equals the wrapped error the SDK hands out. This is an interpretation: the SDK's own definition is not part of this model.
- **Gallery gateway** (`cmd/gateway/main.go`). It lists the app bucket and renders one link per object. Each failing step maps to a 500 response with its own body text.
- **Legacy gallery server** (`lambdas/gateway/main.go`). It is the same listing over the constant bucket, written to a `net/http` response writer. It panics when the template fails to parse and returns silently on configuration or listing errors.

## Modules

- `common.dfy` (`Common`): shared values.
  - `Option` and `Result`.
  - The opaque `Value` type for float32 observations.
  - `Entry`, the app config and the AWS config.
  - `Enumerates`/`Enumerate`, for a store listing whose order the model leaves open.
- `dynamo.dfy` (`Dynamo`): the table service.
  - Attribute values `S | N | Other`.
  - Tables as maps from `date` to item.
  - Errors wrapped in an operation error, as the SDK hands them out.
  - A `TableStore` class whose `CreateTable`, `PutItem` and `Scan` update or read its `tables` field.
- `objects.dfy` (`ObjectStorage`): the object store, a class with `PutObject` and `ListObjects` over its `buckets` field.
- `datelayout.dfy` (`DateLayout`): `time.Parse` for the layout `2006-01-02T15:04`, element by element as Go's parser does it.
  - Its partner is `Format`, which writes an instant in that layout.
  - `Before` and a numbering `Rank` of instants.
- `sorting.dfy` (`EntrySort`):
  - the comparator closure;
  - `sort.Slice` as an in-place sort on an array, generic in the element type and the closure;
  - `sortEntries` as copy-then-sort.
- `chart.dfy` (`Plot`): the chart handed to the chart library (labels, points, fixed options), the append loops of `generatePlot` and `generateLineItems`, and an uninterpreted renderer that may fail.
- `pipeline.dfy` (`Pipeline`): what both ingest handlers share.
  - The trace of service requests.
  - The table state after CreateTable.
  - Front-to-back decoding of scanned items, parameterised by the per-item decoder.
- `handler.dfy` (`Handler`), `legacy_handler.dfy` (`LegacyHandler`): the two ingest handlers.
- `gallery.dfy` (`Gallery`): the object URL and the item list that both gateways build.
- `gateway.dfy` (`Gateway`), `legacy_gateway.dfy` (`LegacyGateway`): the two gallery front ends.
  - The legacy one includes the part of `http.ResponseWriter` and `http.Error` that it relies on.

Failures decided by something outside the stores are boolean fault flags or `Option`s in an environment record:
- throttling or network errors on a request, and the services' checks of a request's own input (an empty key value, a malformed table name);
- a missing AWS configuration;
- a config file that cannot be read or parsed;
- a template that does not parse.

Failures decided by the stores' state come from that state:
- the table exists or is missing;
- the bucket is missing;
- the key attribute is absent.

`strconv.ParseFloat`, `fmt.Sprintf("%f", …)`, the chart library's `Render` and the template's `Execute` are function-valued parameters. The handlers hand back ghost results that record:
- the requests made;
- the rows a scan returned;
- the order the scan chose;
- the decoded and sorted entries.

Their contracts state what each outcome leaves in the two stores.

Three behaviours one might expect of such a pipeline are not in the code, and the model follows the code:
- **Unparsable dates are neither dropped nor moved to one end.** The comparator answers "not less" for any pair with an unparsable date. The model therefore promises a permutation always, and ascending order only when every date parses (`EntrySort.SortEntries`).
- **Two entries can share an instant.** The hour element accepts one or two digits, so two different date strings can name the same instant: `DateLayout.ParseFormatShortHour` next to `DateLayout.ParseFormat`. Which of two such entries comes first is left open.
- **There is no paging and no wait for a new table to become active.** The model has neither.

## Model

| member | source | states |
|---|---|---|
| Handler.Admit | cmd/handler/main.go:52-93 | The invocation gets past its preparation steps exactly when the config loads, `responsePayload` decodes into an event and the AWS config loads; it then yields that event. Any failure is one of the steps before the first service request, and a config failure is reported as reading or parsing it |
| Handler.HandleRequest | cmd/handler/main.go:48-201 | The first preparation step that fails is the outcome, with no request made and neither store changed; a payload without a decodable `responsePayload` is such a failure. Otherwise the event `Admit` yields is ingested as `Handler.Ingested` describes |
| Handler.Ingest | cmd/handler/main.go:99-201 | The outcome is the first failing step: CreateTable only on a fault (an existing table goes on), PutItem only on a fault, Scan on a fault, decoding on the first bad row, rendering when the chart of the history does not render, upload on a fault or a missing bucket; otherwise Done. The requests made are the prefix of CreateTable, PutItem, Scan, PutObject that this outcome reaches. A CreateTable failure leaves the tables as they were, a PutItem failure leaves the table created but unwritten, and every later outcome leaves the observation written. After a successful Scan the rows are the table's items and, when they decode, the history is their sorted permutation. Nothing is published unless Done; Done stores the chart of the history, which holds the new observation, as `<name>.html` with `text/html` |
| Handler.PublishStored | cmd/handler/main.go:136-195 | Once the observation is stored, the outcome, requests and store state are as `Handler.Ingest` states for a run whose CreateTable and PutItem succeeded |
| Handler.Store | cmd/handler/main.go:99-134 | CreateTable stops the run exactly on a fault: a ResourceInUse anywhere in the error chain (an existing table) is success. PutItem then fails exactly on a fault. A CreateTable failure leaves the tables unchanged, a PutItem failure leaves only the created table, and success upserts the observation under its date |
| Handler.Publish | cmd/handler/main.go:136-195 | The outcome is `Failed(Scan)` on a scan fault, otherwise the stage of the first row that does not decode, otherwise `Failed(RenderPlot)` when the sorted history's chart does not render, otherwise `Failed(Upload)` on an upload fault or a missing bucket, otherwise Done. A successful scan returns the table's items once each; decoded rows give the entries in scan order, and the history is their permutation, sorted when every date parses. Only the object store changes, and only on Done, when exactly `<name>.html` holds the rendered chart with `text/html` and the observation just written is in the history |
| Handler.NewObservationInHistory | cmd/handler/main.go:125-175 | An item stored in the table decodes, and its Entry is among the decoded entries of any complete scan of that table |
| Handler.DecodeRow | cmd/handler/main.go:149-171 | An item decodes exactly when `date` is a string attribute, `value` a number attribute and its text parses; the Entry carries that date and parsed value |
| Handler.DecodeRows | cmd/handler/main.go:145-173 | The decoding loop yields exactly `DecodeAll` with the strict decoder: one Entry per row in scan order, or the error of the first row whose `date` is not a string, whose `value` is not a number, or whose number does not parse |
| Handler.UploadKey | cmd/handler/main.go:188 | The key is the series name followed by `.html` |
| Handler.UploadKeyInjective | cmd/handler/main.go:188 | Distinct series never share a chart object |
| Pipeline.DecodeAllOk | cmd/handler/main.go:145-173 | Decoding succeeds iff every row decodes, and then gives exactly one Entry per row, the i-th being the i-th row's decoding |
| Pipeline.DecodeAllFirstError | cmd/handler/main.go:148-166 | A failed decoding reports the error of the first row that does not decode; all rows before it decode |
| EntrySort.DateLess | cmd/handler/main.go:249-257 | The closure holds only between two dates that both parse, and then only when the first instant is strictly earlier |
| EntrySort.Less | cmd/handler/main.go:249-257 | The closure on two entries holds only when both dates parse |
| EntrySort.SortEntries | cmd/handler/main.go:243-260 | The result has the same length and is a permutation of the input, and is sorted by parsed time whenever every date parses; the input is a value and is unchanged |
| EntrySort.SortSlice | cmd/handler/main.go:249-257 | In-place sort with any asymmetric closure: always a permutation of the array's old contents, and sorted whenever "not less" is transitive on the elements |
| EntrySort.LessIsWeakOrderOn | cmd/handler/main.go:249-257 | On entries whose dates all parse, the closure's "not less" is transitive |
| EntrySort.UnparsableNeverLess | cmd/handler/main.go:252-255 | A pair with an unparsable date compares as not less in both orders, so a bad date never stops sorting |
| EntrySort.LessIsBefore | cmd/handler/main.go:250-256 | Between parsable dates the closure is `Before` on the parsed instants, in both directions |
| EntrySort.LessAsymmetric | cmd/handler/main.go:249-257 | The closure is never true both ways |
| EntrySort.NotLessTransitive | cmd/handler/main.go:249-257 | Between parsable dates, "not less" is transitive |
| EntrySort.NeitherLessIsSameInstant | cmd/handler/main.go:249-257 | Two parsable dates neither of which is less than the other name the same instant |
| EntrySort.SortedIsAscending | cmd/handler/main.go:242-260 | In a sorted result whose dates all parse, every earlier entry's instant is the same as or before every later one's |
| EntrySort.ThreeFormattedSortByInstant | cmd/handler/main.go:243-260 | Three entries dated at three successive instants, given out of order: the only sorted arrangement is by instant |
| DateLayout.Parse | cmd/handler/main.go:250-251 | `time.Parse` with the layout yields only valid instants (its inverse and exact domain are `ParseIff`) |
| DateLayout.DaysIn | cmd/handler/main.go:247-251 | Every month has 28 to 31 days, and February has 29 exactly in leap years |
| DateLayout.ParseFormat | cmd/handler/main.go:247-251 | Parsing the layout's own text of a valid instant gives that instant back |
| DateLayout.ParseFormatShortHour | cmd/handler/main.go:247-251 | A single-digit hour is accepted too, and names the same instant as its two-digit form |
| DateLayout.ParseSound | cmd/handler/main.go:247-251 | Whatever parses is a valid instant (month 1..12, day within the month including leap years, hour < 24, minute < 60), and the text is exactly its layout form with a one- or two-digit hour and nothing after the minutes |
| DateLayout.ParseIff | cmd/handler/main.go:247-251 | A string parses to an instant exactly when the instant is valid and the string is its layout form |
| DateLayout.BeforeIffRank | cmd/handler/main.go:256 | On valid instants `Before` is the order of their numbering, so it is a strict total order, and equal numbers mean equal instants |
| Dynamo.HasResourceInUse | cmd/handler/main.go:115-121 | The chain search finds ResourceInUse exactly when the chain of operation wrappers ends in it |
| Dynamo.Upsert | cmd/handler/main.go:125-131 | PutItem's effect: the item lands under its `date`, every other item stays |
| Dynamo.UpsertLastWriteWins | cmd/handler/main.go:125-131 | Of two writes under the same date the second wins, and the table grows by at most one item |
| Dynamo.ScanSize | cmd/handler/main.go:138-145 | A scan returns exactly as many rows as the table holds |
| Dynamo.TableStore.CreateTable | cmd/handler/main.go:99-114 | An existing table is reported as a wrapped ResourceInUse and left as it is; a missing one is created empty; a fault changes nothing |
| Dynamo.TableStore.PutItem | cmd/handler/main.go:125-131 | Succeeds iff no fault, the table exists and the item has a string `date`; then upserts it, else changes nothing |
| Dynamo.TableStore.Scan | cmd/handler/main.go:138-145 | Succeeds iff no fault and the table exists; then returns each item of the table once, in an order it chooses; in a store whose items are filed under their dates every row it returns has a string `date` |
| Dynamo.ScanRowsFiled | cmd/handler/main.go:138-154 | In a store keyed by date, each scanned row carries, as a string `date`, the key it was listed under, so the strict decoder's `date` check never fails on a table written only through PutItem |
| ObjectStorage.ObjectStore.PutObject | cmd/handler/main.go:186-195 | Succeeds iff no fault and the bucket exists; then stores the bytes and content type under the key, else changes nothing |
| ObjectStorage.ObjectStore.ListObjects | cmd/gateway/main.go:81-89 | Succeeds iff no fault and the bucket exists; then lists every key of the bucket once |
| Plot.Labels | cmd/handler/main.go:222-225 | One x-axis label per entry, its date, in entry order |
| Plot.Points | cmd/handler/main.go:207-213 | One series point per entry, its value, in entry order |
| Plot.ChartPairsUp | cmd/handler/main.go:216-232 | Labels and points have the entries' length, and label i with point i gives back entry i |
| Plot.ChartOf | cmd/handler/main.go:216-232 | The chart carries the fixed options (1200px by 350px, chalk theme), the series name "Price", no smoothing, and one label and one point per entry |
| Plot.GenerateLineItems | cmd/handler/main.go:207-213 | The append loop yields exactly the entries' points |
| Plot.GeneratePlot | cmd/handler/main.go:216-240 | Fails iff rendering the chart of the entries (fixed 1200px by 350px, chalk theme, series "Price", not smooth) fails, and then yields no bytes; otherwise yields the rendered HTML |
| LegacyHandler.HandleRequest | lambdas/handler/main.go:38-174 | The outcome is `Failed(LoadAwsConfig)` exactly when there is no AWS config. It is then `Failed(CreateTable)` on a fault or an existing table, because the error arrives wrapped. A table it created goes on to the Scan. The outcome is `Failed(Scan)` on a scan fault, `Failed(ConvertValue)` when a row's value text does not parse, `Failed(RenderPlot)` when the chart does not render, `Failed(Upload)` on an upload fault or a missing bucket, and otherwise Done. The requests are the matching prefix of CreateTable("item1"), Scan("item1"), PutObject("price-tracker-plots", "item1.html", no content type), and none writes an item. The table is at most created. Nothing is published unless Done |
| LegacyHandler.PlotTable | lambdas/handler/main.go:109-170 | `Failed(Scan)` on a scan fault or a missing "item1", `Failed(ConvertValue)` when a row's value text does not parse, `Failed(RenderPlot)` when the chart of the entries in scan order does not render, `Failed(Upload)` on an upload fault or a missing bucket, otherwise Done, which stores "item1.html" with no content type; only the object store changes, and only on Done |
| LegacyHandler.Tolerated | lambdas/handler/main.go:101-107 | The `==` test tolerates nothing the current handler's chain search would refuse |
| LegacyHandler.LenientDecodeRow | lambdas/handler/main.go:124-147 | Only the float parse can fail; a missing or non-number `value` is parsed as ""; the date is the string `date`, or "" when it is missing or not a string |
| LegacyHandler.WrappedNeverTolerated | lambdas/handler/main.go:101-107 | The `==` comparison never matches a wrapped error, even one wrapping ResourceInUse, which the current handler's chain search does match |
| LegacyHandler.LenientDecodeRows | lambdas/handler/main.go:118-148 | The decoding loop yields exactly `DecodeAll` with the lenient decoder: one Entry per row in scan order, or the float-parse error of the first row whose value text does not parse |
| LegacyHandler.LenientExtendsStrict | lambdas/handler/main.go:122-147 | Where strict decoding accepts a row, lenient decoding yields the same Entry |
| LegacyHandler.LenientAcceptsStrict | lambdas/handler/main.go:118-148 | Over a whole scan, whatever strict decoding accepts, lenient decoding accepts with the same entries |
| LegacyHandler.MissingDateBecomesEmpty | lambdas/handler/main.go:124-129 | A row without a string `date` becomes an Entry dated "" where strict decoding rejects it |
| LegacyHandler.MissingValueAborts | lambdas/handler/main.go:130-141 | A row without a number `value` leaves the text "", whose float parse fails, so decoding fails |
| Gallery.ObjectUrl | cmd/gateway/main.go:97 | The URL starts with `https://` and the bucket, has fixed length beyond bucket, region and key, and ends with the key |
| Gallery.ObjectUrlSplits | cmd/gateway/main.go:97 | The URL is the fixed bucket-and-region prefix followed by the key |
| Gallery.ObjectUrlInjective | cmd/gateway/main.go:97 | Within one bucket and region, distinct keys give distinct URLs |
| Gallery.BuildItems | cmd/gateway/main.go:95-102 | Exactly one item per listed key, in listing order, named by the key and pointing to `https://<bucket>.s3.<region>.amazonaws.com/<key>` |
| Gallery.DistinctKeysDistinctPaths | lambdas/gateway/main.go:59-66 | A listing without repeated keys gives a page without repeated links |
| Gateway.SetupFailure | cmd/gateway/main.go:32-67 | No setup failure exactly when the config loads, the template parses and the AWS config loads |
| Gateway.HandleRequest | cmd/gateway/main.go:29-120 | Each failing step, in the steps' order, answers 500 with its own body and error. The bucket is listed only when everything before succeeds. The items come from the configured bucket and the region, one per listed key. Success answers 200 with `Content-Type: text/html` and the page, and no error. Every response is a 500 with an error or a 200 without one |
| LegacyGateway.HttpError | lambdas/gateway/main.go:71-74 | Drops Content-Length, sets a plain-text Content-Type and nosniff, sends the status if none went out yet, and writes the message and a newline |
| LegacyGateway.HomeHandler | lambdas/gateway/main.go:21-76 | Panics exactly when the template does not parse. Lists only when the template parses and the AWS config loads. Panics and silent returns write nothing. Otherwise the items come from "price-tracker-plots", one per listed key. An execution error before any output gives a 500 with the text; after output, the 200 has gone out and the text is appended |

## Left out

- The network behaviour of the AWS services and of `config.LoadDefaultConfig` is not modelled. The services are the two store classes, and outside failures are fault flags.
- Paging is not modelled. One `Scan` and one `ListObjectsV2` return everything, with no 1 MB or 1000-key limit, because the code requests no further pages.
- The table is usable immediately after CreateTable. The code has no wait for the table to become active, so the creation-then-write race is not modelled, and neither are concurrent invocations.
- float32 values, `strconv.ParseFloat(…, 32)` and `fmt.Sprintf("%f", …)` are floating point. `Value` is opaque, and the parser and formatter are parameters. The only fact assumed of the parser is that it rejects "" (`LegacyHandler.MissingValueAborts`).
- JSON and `embed` are not modelled. The event arrives as a tagged shape (not JSON, no `responsePayload`, undecodable payload, or an event). Reading and parsing the app config is a three-way outcome.
- The chart library's HTML and the template's output are not modelled. Rendering and `Execute` are uninterpreted parameters. So "an empty history renders successfully" cannot be stated.
- `sort.Slice`'s pattern-defeating quicksort is modelled as an insertion sort. Both keep the library's promises (a permutation, sorted under a strict weak order). The library is not stable, so the contracts leave the order of equal instants open, although the model's insertion sort happens to keep it.
- Error message texts of the handlers are not modelled. The outcome names the failing stage. This includes the `%w` of a nil error at cmd/handler/main.go:154 and 159, which still yields a non-nil error.
- Logging and `fmt.Print` output are not modelled, nor are `lambda.Start`, `http.ListenAndServe` and the `main` functions. This includes the unreachable code after `log.Fatal` at lambdas/gateway/main.go:86-137.
- The legacy handler never reads its event, so its model takes no event.
- The legacy server writes through net/http: Content-Type sniffing on the first write is not modelled, and the template's output is taken as one write.
- The tracker script `lambdas/trackers/item/app.py` generates random prices from the wall clock; it is not part of this model.
- LegacyGateway.HomeHandler: on a successful execution the header sent is whatever the writer's header held, since Content-Type sniffing is not modelled.
- Handler.Publish: the model's Scan reads the table as the PutItem left it, that is a strongly consistent read. The program's Scan at cmd/handler/main.go:138-140 sets no ConsistentRead, so with DynamoDB's default eventually consistent read the observation just written may be missing from the published history.
- Handler.Ingest: the promise that the new observation is in the published history holds under a consistent read only, as for Handler.Publish.
- ObjectStorage.ObjectStore.ListObjects: S3 lists keys in ascending key order; the model leaves the order open, so the order of the gallery's links is not promised.
- Dynamo.TableStore.PutItem: DynamoDB refuses an empty string as a key value on every call; the model folds that refusal into the fault flag, so a run whose event has no `date` (decoded as "") ends in `Failed(PutItem)` only when the fault flag is set.
- Dynamo.TableStore.CreateTable: DynamoDB refuses a table name that is not 3 to 255 characters of letters, digits, `_`, `-` and `.`; the model folds that refusal into the fault flag rather than deriving it from the name.
- Gateway.HandleRequest: on a listing failure only the kind of error (`ListFailure`) is stated, not which store error it wraps.
