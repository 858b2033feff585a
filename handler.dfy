/**
 * The ingest handler (`HandleRequest` of the current plot handler): read the
 * embedded app config, unwrap `responsePayload` and decode the observation,
 * ensure the series' table exists, upsert the observation, scan the whole
 * table, decode every item, sort by date, build the chart and publish it as
 * `<name>.html`. Each step can fail and ends the invocation there.
 */
module Handler {
  import opened Common
  import opened Dynamo
  import opened ObjectStorage
  import opened Plot
  import opened EntrySort
  import opened Pipeline

  /** The observation a tracker reports. */
  datatype MyEvent = MyEvent(name: string, date: string, value: Value)

  /** The invocation payload, as far as JSON decoding tells it apart. */
  datatype RawEvent =
    | NotJsonObject                 // not a JSON object at all
    | NoResponsePayload             // an object without a top-level `responsePayload`
    | PayloadNotEvent               // `responsePayload` does not decode into MyEvent
    | WithPayload(event: MyEvent)   // `responsePayload` decodes into this event

  /** Where an invocation stopped. */
  datatype Stage =
    | ReadConfig | ParseConfig
    | ParseEvent | FindPayload | DecodeEvent
    | LoadAwsConfig
    | CreateTable | PutItem | Scan
    | ReadRow | ConvertValue
    | RenderPlot | Upload

  datatype Outcome = Done | Failed(stage: Stage)

  /** Failures of the service calls that the services' own state does not decide,
      including the services' checks of a request's own input. */
  datatype Faults = Faults(createTable: bool, putItem: bool, scan: bool, upload: bool)

  /** Everything the handler depends on besides the two stores. */
  datatype Env = Env(
    appConfig: ConfigLoad,
    awsConfig: Option<AwsConfig>,
    faults: Faults,
    parseFloat: string -> Option<Value>,   // strconv.ParseFloat(s, 32)
    formatFloat: Value -> string,          // fmt.Sprintf("%f", v)
    render: Renderer)                      // the chart library's Render

  /** Failures that come before any service request. */
  predicate BeforeStore(s: Stage) {
    s.ReadConfig? || s.ParseConfig? || s.ParseEvent? || s.FindPayload? || s.DecodeEvent? || s.LoadAwsConfig?
  }

  /** Outcomes reached only after the observation was written. */
  predicate Persisted(o: Outcome) {
    o.Done? || o.stage.Scan? || o.stage.ReadRow? || o.stage.ConvertValue? || o.stage.RenderPlot? || o.stage.Upload?
  }

  /** The object key a series' chart is published under. */
  function UploadKey(name: string): (key: string)
    ensures |key| == |name| + 5 && key[..|name|] == name && key[|name|..] == ".html"
  {
    name + ".html"
  }

  /** Two series never share a chart object. */
  lemma UploadKeyInjective(a: string, b: string)
    requires UploadKey(a) == UploadKey(b)
    ensures a == b
  {
    assert a == UploadKey(a)[..|a|];
    assert b == UploadKey(b)[..|b|];
  }

  // ---------------------------------------------------------------------
  // Decoding the scanned items

  /** The stage a row error is reported at. */
  function RowStage(e: RowError): Stage {
    if e == NotAFloat then ConvertValue else ReadRow
  }

  /** One item to one Entry: `date` must be a string attribute, `value` a
      number attribute whose text parses as a float. */
  function DecodeRow(item: Row, parseFloat: string -> Option<Value>): (r: Result<Entry, RowError>)
    ensures r.Ok? <==>
      && "date" in item && item["date"].S?
      && "value" in item && item["value"].N? && parseFloat(item["value"].n).Some?
    ensures r.Ok? ==> r.value.date == item["date"].s && Some(r.value.value) == parseFloat(item["value"].n)
    ensures r == Err(NotAFloat) ==> "date" in item && "value" in item && item["value"].N?
  {
    if !("date" in item && item["date"].S?) then Err(DateNotString)
    else if !("value" in item && item["value"].N?) then Err(ValueNotNumber)
    else match parseFloat(item["value"].n)
      case None => Err(NotAFloat)
      case Some(v) => Ok(Entry(item["date"].s, v))
  }

  /** `DecodeRow` as a function value, for `DecodeAll`. */
  function StrictRow(parseFloat: string -> Option<Value>): Row -> Result<Entry, RowError> {
    item => DecodeRow(item, parseFloat)
  }

  /** The decoding loop of `HandleRequest`. */
  method DecodeRows(items: seq<Row>, parseFloat: string -> Option<Value>)
    returns (r: Result<seq<Entry>, RowError>)
    ensures r == DecodeAll(items, StrictRow(parseFloat))
  {
    var entries := [];
    var i := 0;
    while i < |items|
      invariant 0 <= i <= |items|
      invariant DecodeAll(items[..i], StrictRow(parseFloat)) == Ok(entries)
    {
      assert items[..i + 1][..i] == items[..i];
      var item := items[i];
      if !("date" in item && item["date"].S?) {
        DecodeAllErrExtends(items, i + 1, StrictRow(parseFloat));
        return Err(DateNotString);
      }
      var date := item["date"].s;
      if !("value" in item && item["value"].N?) {
        DecodeAllErrExtends(items, i + 1, StrictRow(parseFloat));
        return Err(ValueNotNumber);
      }
      var value := item["value"].n;
      var valNumeric := parseFloat(value);
      if valNumeric.None? {
        DecodeAllErrExtends(items, i + 1, StrictRow(parseFloat));
        return Err(NotAFloat);
      }
      entries := entries + [Entry(date, valNumeric.value)];
      i := i + 1;
    }
    assert items[..|items|] == items;
    r := Ok(entries);
  }

  // ---------------------------------------------------------------------
  // The pipeline

  /** The tables after the observation is written (the table is created if needed). */
  function Written(tables: map<string, Table>, name: string, item: Row): map<string, Table>
    requires "date" in item && item["date"].S?
  {
    tables[name := Upsert(if name in tables then tables[name] else map[], item)]
  }

  /** The requests of a run that gets all the way through, in order. */
  function Plan(ev: MyEvent, bucket: string, formatFloat: Value -> string): seq<Call> {
    [ CreateTableCall(ev.name),
      PutItemCall(ev.name, Observation(ev.date, formatFloat(ev.value))),
      ScanCall(ev.name),
      PutObjectCall(bucket, UploadKey(ev.name), Some("text/html")) ]
  }

  /** How many of the planned requests a run with this outcome makes. */
  function CallCount(o: Outcome): nat {
    match o
    case Done => 4
    case Failed(s) =>
      if BeforeStore(s) then 0
      else if s == CreateTable then 1
      else if s == PutItem then 2
      else if s == Upload then 4
      else 3
  }

  /**
   * The steps before any service request, in the handler's order: the
   * embedded app config is read and parsed, the payload is parsed as JSON,
   * `responsePayload` is looked up and decoded as the event, and the AWS
   * configuration is loaded. The first that fails names the stage.
   */
  function Admit(event: RawEvent, env: Env): (r: Result<MyEvent, Stage>)
    ensures r.Ok? <==> env.appConfig.ConfigLoaded? && event.WithPayload? && env.awsConfig.Some?
    ensures r.Ok? ==> r.value == event.event
    ensures r.Err? ==> BeforeStore(r.error)
    ensures !env.appConfig.ConfigLoaded? ==> r.Err? && r.error in {ReadConfig, ParseConfig}
  {
    if env.appConfig.ConfigReadFails? then Err(ReadConfig)
    else if env.appConfig.ConfigParseFails? then Err(ParseConfig)
    else match event
      case NotJsonObject => Err(ParseEvent)
      case NoResponsePayload => Err(FindPayload)
      case PayloadNotEvent => Err(DecodeEvent)
      case WithPayload(ev) => if env.awsConfig.None? then Err(LoadAwsConfig) else Ok(ev)
  }

  method HandleRequest(db: TableStore, s3: ObjectStore, event: RawEvent, env: Env)
    returns (outcome: Outcome, ghost calls: seq<Call>, ghost rows: seq<Row>, ghost order: seq<string>,
             ghost entries: seq<Entry>, ghost history: seq<Entry>)
    requires db.Valid()
    modifies db, s3
    ensures db.Valid()
    // a bad config, payload or AWS config: that step's failure, no request, nothing is touched
    ensures !event.WithPayload? ==> outcome.Failed? && BeforeStore(outcome.stage)
    ensures Admit(event, env).Err? ==>
      outcome == Failed(Admit(event, env).error)
      && calls == [] && db.tables == old(db.tables) && s3.buckets == old(s3.buckets)
    ensures outcome.Failed? && BeforeStore(outcome.stage) ==> Admit(event, env).Err?
    // otherwise the admitted event is ingested
    ensures Admit(event, env).Ok? ==>
      && env.appConfig.ConfigLoaded?
      && Ingested(old(db.tables), db.tables, old(s3.buckets), s3.buckets, Admit(event, env).value,
                  env.appConfig.config.appBucket, env, outcome, calls, rows, order, entries, history)
  {
    calls, rows, order, entries, history := [], [], [], [], [];
    var admitted := Admit(event, env);
    if admitted.Err? {
      return Failed(admitted.error), calls, rows, order, entries, history;
    }
    outcome, calls, rows, order, entries, history := Ingest(db, s3, admitted.value, env.appConfig.config.appBucket, env);
  }

  /** The outcome of the steps after the write: the first of Scan, decoding,
      rendering and upload that fails, or Done. */
  function AfterWrite(env: Env, rows: seq<Row>, history: seq<Entry>, bucketExists: bool): Outcome {
    if env.faults.scan then Failed(Scan)
    else match DecodeAll(rows, StrictRow(env.parseFloat))
      case Err(e) => Failed(RowStage(e))
      case Ok(_) =>
        if env.render(ChartOf(history)).None? then Failed(RenderPlot)
        else if env.faults.upload || !bucketExists then Failed(Upload)
        else Done
  }

  /** The outcome of an admitted invocation: CreateTable fails only by a
      fault (an existing table is no failure), PutItem only by a fault
      (the table is there and the item carries its string key), and from
      then on as `AfterWrite` says. */
  function IngestOutcome(env: Env, rows: seq<Row>, history: seq<Entry>, bucketExists: bool): Outcome {
    if env.faults.createTable then Failed(CreateTable)
    else if env.faults.putItem then Failed(PutItem)
    else AfterWrite(env, rows, history, bucketExists)
  }

  /** What the read-back yields: the rows are a scan of the table and, when
      they all decode, `entries` is their decoding and `history` the same
      entries sorted by date whenever all dates parse. */
  ghost predicate ReadBack(table: Table, env: Env, rows: seq<Row>, order: seq<string>,
                           entries: seq<Entry>, history: seq<Entry>) {
    && ScanOf(rows, table, order)
    && (DecodeAll(rows, StrictRow(env.parseFloat)).Ok? ==>
          && DecodeAll(rows, StrictRow(env.parseFloat)) == Ok(entries)
          && multiset(history) == multiset(entries)
          && (AllDatesParse(entries) ==> Sorted(history)))
  }

  /**
   * Everything an admitted invocation does, as seen from outside: which
   * outcome it reaches; the requests made, in order; the table state after
   * the write (unchanged if CreateTable failed, created if PutItem failed,
   * and holding the observation from then on); what the read-back yields;
   * nothing published unless the outcome is Done, and then the publication
   * with the new observation in the history.
   */
  ghost predicate Ingested(tablesBefore: map<string, Table>, tablesAfter: map<string, Table>,
                           bucketsBefore: map<string, Bucket>, bucketsAfter: map<string, Bucket>,
                           ev: MyEvent, bucket: string, env: Env, outcome: Outcome, calls: seq<Call>,
                           rows: seq<Row>, order: seq<string>, entries: seq<Entry>, history: seq<Entry>)
  {
    var item := Observation(ev.date, env.formatFloat(ev.value));
    && outcome == IngestOutcome(env, rows, history, bucket in bucketsBefore)
    && calls == Plan(ev, bucket, env.formatFloat)[..CallCount(outcome)]
    && (outcome == Failed(CreateTable) ==> tablesAfter == tablesBefore)
    && (outcome == Failed(PutItem) ==> tablesAfter == Prepared(tablesBefore, ev.name))
    && (Persisted(outcome) ==> tablesAfter == Written(tablesBefore, ev.name, item))
    && (Persisted(outcome) && !env.faults.scan ==>
          ev.name in tablesAfter && ReadBack(tablesAfter[ev.name], env, rows, order, entries, history))
    && (outcome != Done ==> bucketsAfter == bucketsBefore)
    && (outcome == Done ==>
          && ev.name in tablesAfter
          && Published(bucketsBefore, bucketsAfter, tablesAfter[ev.name], ev.name, bucket, env,
                       rows, order, entries, history)
          && DecodeRow(item, env.parseFloat).Ok?
          && DecodeRow(item, env.parseFloat).value in history)
  }

  /** `HandleRequest` from CreateTable on, for an admitted event. */
  method Ingest(db: TableStore, s3: ObjectStore, ev: MyEvent, bucket: string, env: Env)
    returns (outcome: Outcome, ghost calls: seq<Call>, ghost rows: seq<Row>, ghost order: seq<string>,
             ghost entries: seq<Entry>, ghost history: seq<Entry>)
    requires db.Valid()
    modifies db, s3
    ensures db.Valid()
    ensures Ingested(old(db.tables), db.tables, old(s3.buckets), s3.buckets, ev, bucket, env,
                     outcome, calls, rows, order, entries, history)
  {
    // create the table if needed, then upsert the observation
    var item := Observation(ev.date, env.formatFloat(ev.value));
    var storeErr := Store(db, ev.name, item, env.faults);
    if storeErr.Some? {
      outcome, rows, order, entries, history := Failed(storeErr.value), [], [], [], [];
      calls := if storeErr == Some(CreateTable) then [CreateTableCall(ev.name)]
               else [CreateTableCall(ev.name), PutItemCall(ev.name, item)];
      return;
    }
    // read back, decode, sort, plot and publish
    outcome, calls, rows, order, entries, history := PublishStored(db, s3, ev, bucket, env, item, old(db.tables));
  }

  /** `Ingest` once the observation is stored: the Scan and, when the chart
      renders, the PutObject follow the CreateTable and PutItem. */
  method PublishStored(db: TableStore, s3: ObjectStore, ev: MyEvent, bucket: string, env: Env, item: Row,
                       ghost tablesBefore: map<string, Table>)
    returns (outcome: Outcome, ghost calls: seq<Call>, ghost rows: seq<Row>, ghost order: seq<string>,
             ghost entries: seq<Entry>, ghost history: seq<Entry>)
    requires !env.faults.createTable && !env.faults.putItem
    requires item == Observation(ev.date, env.formatFloat(ev.value))
    requires db.tables == Written(tablesBefore, ev.name, item)
    modifies s3
    ensures Ingested(tablesBefore, db.tables, old(s3.buckets), s3.buckets, ev, bucket, env,
                     outcome, calls, rows, order, entries, history)
  {
    outcome, rows, order, entries, history := Publish(db, s3, ev.name, bucket, env, item);
    calls := [CreateTableCall(ev.name), PutItemCall(ev.name, item), ScanCall(ev.name)];
    if outcome == Done || outcome == Failed(Upload) {
      calls := calls + [PutObjectCall(bucket, UploadKey(ev.name), Some("text/html"))];
    }
    PlanAfterWrite(ev, bucket, env.formatFloat, outcome);
  }

  /** The requests of a run that got past the write: CreateTable, PutItem and
      Scan, then PutObject exactly when the chart rendered. */
  lemma PlanAfterWrite(ev: MyEvent, bucket: string, formatFloat: Value -> string, outcome: Outcome)
    requires Persisted(outcome)
    ensures Plan(ev, bucket, formatFloat)[..CallCount(outcome)] ==
      [CreateTableCall(ev.name), PutItemCall(ev.name, Observation(ev.date, formatFloat(ev.value))), ScanCall(ev.name)]
      + (if outcome == Done || outcome == Failed(Upload)
         then [PutObjectCall(bucket, UploadKey(ev.name), Some("text/html"))] else [])
  {
  }

  /**
   * The write half of `HandleRequest`: CreateTable, where a ResourceInUse
   * error anywhere in the error chain means the table already exists and is
   * not a failure, then PutItem of the observation.
   */
  method Store(db: TableStore, name: string, item: Row, faults: Faults) returns (failed: Option<Stage>)
    requires db.Valid()
    requires "date" in item && item["date"].S?
    modifies db
    ensures db.Valid()
    // an existing table does not stop the run: only a fault of either request does
    ensures failed == Some(CreateTable) <==> faults.createTable
    ensures failed == Some(PutItem) <==> !faults.createTable && faults.putItem
    ensures failed.None? <==> !faults.createTable && !faults.putItem
    ensures failed == Some(CreateTable) ==> db.tables == old(db.tables)
    ensures failed == Some(PutItem) ==> db.tables == Prepared(old(db.tables), name)
    ensures failed.None? ==> db.tables == Written(old(db.tables), name, item)
  {
    var err := db.CreateTable(name, faults.createTable);
    if err.Some? && !HasResourceInUse(err.value) {
      return Some(CreateTable);
    }
    err := db.PutItem(name, item, faults.putItem);
    if err.Some? {
      return Some(PutItem);
    }
    failed := None;
  }

  /**
   * A successful publication: the read-back decoded, the chart of the
   * history rendered, and its HTML is stored under `<name>.html` with
   * Content-Type text/html, the only change to the object store.
   */
  ghost predicate Published(before: map<string, Bucket>, after: map<string, Bucket>, table: Table,
                            name: string, bucket: string, env: Env, rows: seq<Row>, order: seq<string>,
                            entries: seq<Entry>, history: seq<Entry>) {
    && ReadBack(table, env, rows, order, entries, history)
    && DecodeAll(rows, StrictRow(env.parseFloat)).Ok?
    && env.render(ChartOf(history)).Some?
    && bucket in before
    && after == before[bucket := before[bucket][UploadKey(name) :=
         Object(env.render(ChartOf(history)).value, Some("text/html"))]]
  }

  /**
   * The second half of `HandleRequest`, after the write: scan the series'
   * table, decode every item, sort the entries and publish their chart under
   * `<name>.html` with Content-Type text/html. Only the object store changes.
   */
  method Publish(db: TableStore, s3: ObjectStore, name: string, bucket: string, env: Env, ghost item: Row)
    returns (outcome: Outcome, ghost rows: seq<Row>, ghost order: seq<string>,
             ghost entries: seq<Entry>, ghost history: seq<Entry>)
    requires name in db.tables && "date" in item && item["date"].S?
    requires item["date"].s in db.tables[name] && db.tables[name][item["date"].s] == item
    modifies s3
    ensures outcome == AfterWrite(env, rows, history, bucket in old(s3.buckets))
    ensures !env.faults.scan ==> ReadBack(db.tables[name], env, rows, order, entries, history)
    ensures outcome != Done ==> s3.buckets == old(s3.buckets)
    ensures outcome == Done ==>
      && Published(old(s3.buckets), s3.buckets, db.tables[name], name, bucket, env,
                   rows, order, entries, history)
      && DecodeRow(item, env.parseFloat).Ok? && DecodeRow(item, env.parseFloat).value in history
  {
    rows, order, entries, history := [], [], [], [];
    var items, scanErr, scanOrder := db.Scan(name, env.faults.scan);
    if scanErr.Some? {
      return Failed(Scan), rows, order, entries, history;
    }
    rows, order := items, scanOrder;

    var decoded := DecodeRows(items, env.parseFloat);
    if decoded.Err? {
      return Failed(RowStage(decoded.error)), rows, order, entries, history;
    }
    var decodedEntries := decoded.value;
    entries := decodedEntries;

    var sorted := SortEntries(decodedEntries);
    history := sorted;

    var buf, plotErr := GeneratePlot(sorted, env.render);
    if plotErr {
      return Failed(RenderPlot), rows, order, entries, history;
    }

    var upErr := s3.PutObject(bucket, UploadKey(name), buf, Some("text/html"), env.faults.upload);
    if upErr.Some? {
      return Failed(Upload), rows, order, entries, history;
    }
    NewObservationInHistory(rows, db.tables[name], order, item["date"].s, item, env.parseFloat);
    assert DecodeRow(item, env.parseFloat).value in multiset(history);
    outcome := Done;
  }

  /** The observation just written is among the decoded entries of any scan of its table. */
  lemma NewObservationInHistory(rows: seq<Row>, table: Table, order: seq<string>, date: string,
                                item: Row, parseFloat: string -> Option<Value>)
    requires ScanOf(rows, table, order)
    requires date in table && table[date] == item
    requires DecodeAll(rows, StrictRow(parseFloat)).Ok?
    ensures DecodeRow(item, parseFloat).Ok?
    ensures DecodeRow(item, parseFloat).value in DecodeAll(rows, StrictRow(parseFloat)).value
  {
    DecodeAllOk(rows, StrictRow(parseFloat));
    assert date in order;
    var i :| 0 <= i < |order| && order[i] == date;
    assert rows[i] == item;
    assert DecodeAll(rows, StrictRow(parseFloat)).value[i] == DecodeRow(item, parseFloat).value;
  }
}
