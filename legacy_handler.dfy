/**
 * The earlier ingest handler (`HandleRequest` of the legacy plot handler).
 * It never reads its event: it loads the AWS configuration, makes sure the
 * fixed table "item1" exists, scans it, decodes the items leniently, charts
 * them in scan order (no sort) and publishes the chart as "item1.html" in the
 * fixed bucket "price-tracker-plots", without a content type. It never
 * writes an observation.
 */
module LegacyHandler {
  import opened Common
  import opened Dynamo
  import opened ObjectStorage
  import opened Plot
  import opened Pipeline
  import Handler

  const PlotsBucket := "price-tracker-plots"
  const TableName := "item1"
  const PlotKey := "item1.html"

  /** Where an invocation stopped. */
  datatype Stage = LoadAwsConfig | CreateTable | Scan | ConvertValue | RenderPlot | Upload

  datatype Outcome = Done | Failed(stage: Stage)

  /** Failures of the service calls that the services' own state does not decide,
      including the services' checks of a request's own input. */
  datatype Faults = Faults(createTable: bool, scan: bool, upload: bool)

  /** Everything the handler depends on besides the two stores. */
  datatype Env = Env(
    awsConfig: Option<AwsConfig>,
    faults: Faults,
    parseFloat: string -> Option<Value>,   // strconv.ParseFloat(s, 32)
    render: Renderer)                      // the chart library's Render

  /** The CreateTable error this handler lets pass: only one equal to the
      bare ResourceInUse sentinel, compared with `==`. */
  predicate Tolerated(err: DbError)
    ensures Tolerated(err) ==> HasResourceInUse(err)
  {
    err == ResourceInUse
  }

  /** The comparison does not look inside a wrapped error, so an error that
      reached the handler through the SDK's operation wrapper is never
      tolerated, whatever it wraps; the current handler's chain search does
      tolerate a wrapped ResourceInUse. */
  lemma WrappedNeverTolerated(cause: DbError)
    ensures !Tolerated(DbError.OperationError(cause))
    ensures cause == ResourceInUse ==> HasResourceInUse(DbError.OperationError(cause))
  {
  }

  // ---------------------------------------------------------------------
  // Decoding the scanned items

  /** One item to one Entry, leniently: a `date` that is missing or not a
      string becomes "", a `value` that is missing or not a number becomes
      "", and only the float parse of that text can fail. */
  function LenientDecodeRow(item: Row, parseFloat: string -> Option<Value>): (r: Result<Entry, RowError>)
    // only the float parse can fail
    ensures r.Err? ==> r.error == NotAFloat
    ensures "value" in item && item["value"].N? ==> (r.Ok? <==> parseFloat(item["value"].n).Some?)
    ensures !("value" in item && item["value"].N?) ==> (r.Ok? <==> parseFloat("").Some?)
    ensures r.Ok? && "date" in item && item["date"].S? ==> r.value.date == item["date"].s
    ensures r.Ok? && !("date" in item && item["date"].S?) ==> r.value.date == ""
  {
    var date := if "date" in item && item["date"].S? then item["date"].s else "";
    var value := if "value" in item && item["value"].N? then item["value"].n else "";
    match parseFloat(value)
    case None => Err(NotAFloat)
    case Some(v) => Ok(Entry(date, v))
  }

  /** `LenientDecodeRow` as a function value, for `DecodeAll`. */
  function LenientRow(parseFloat: string -> Option<Value>): Row -> Result<Entry, RowError> {
    item => LenientDecodeRow(item, parseFloat)
  }

  /** Wherever the current handler's strict decoding succeeds, the lenient
      one yields the same Entry. */
  lemma LenientExtendsStrict(item: Row, parseFloat: string -> Option<Value>)
    requires Handler.DecodeRow(item, parseFloat).Ok?
    ensures LenientDecodeRow(item, parseFloat) == Handler.DecodeRow(item, parseFloat)
  {
  }

  /** A number `value` whose text parses, under a `date` that is missing or
      not a string: the strict decoder refuses the item, the lenient one
      files it under the empty date. */
  lemma MissingDateBecomesEmpty(item: Row, parseFloat: string -> Option<Value>)
    requires !("date" in item && item["date"].S?)
    requires "value" in item && item["value"].N? && parseFloat(item["value"].n).Some?
    ensures LenientDecodeRow(item, parseFloat) == Ok(Entry("", parseFloat(item["value"].n).value))
    ensures Handler.DecodeRow(item, parseFloat) == Err(DateNotString)
  {
  }

  /** The float parser refuses the empty text, so an item without a number
      `value` fails to decode after all. */
  lemma MissingValueAborts(item: Row, parseFloat: string -> Option<Value>)
    requires parseFloat("") == None
    requires !("value" in item && item["value"].N?)
    ensures LenientDecodeRow(item, parseFloat) == Err(NotAFloat)
  {
  }

  /** Over a whole scan: whatever the strict decoding accepts, the lenient
      decoding accepts with the same entries. */
  lemma LenientAcceptsStrict(items: seq<Row>, parseFloat: string -> Option<Value>)
    requires DecodeAll(items, Handler.StrictRow(parseFloat)).Ok?
    ensures DecodeAll(items, LenientRow(parseFloat)) == DecodeAll(items, Handler.StrictRow(parseFloat))
  {
    DecodeAllOk(items, Handler.StrictRow(parseFloat));
    forall i | 0 <= i < |items|
      ensures LenientRow(parseFloat)(items[i]) == Handler.StrictRow(parseFloat)(items[i])
    {
      LenientExtendsStrict(items[i], parseFloat);
    }
    DecodeAllOk(items, LenientRow(parseFloat));
    var strict, lenient := DecodeAll(items, Handler.StrictRow(parseFloat)), DecodeAll(items, LenientRow(parseFloat));
    assert lenient.value == strict.value;
  }

  /** The decoding loop of the legacy `HandleRequest`. */
  method LenientDecodeRows(items: seq<Row>, parseFloat: string -> Option<Value>)
    returns (r: Result<seq<Entry>, RowError>)
    ensures r == DecodeAll(items, LenientRow(parseFloat))
  {
    var entries := [];
    var i := 0;
    while i < |items|
      invariant 0 <= i <= |items|
      invariant DecodeAll(items[..i], LenientRow(parseFloat)) == Ok(entries)
    {
      assert items[..i + 1][..i] == items[..i];
      var item := items[i];
      var date, value := "", "";
      if "date" in item && item["date"].S? {
        date := item["date"].s;
      }
      if "value" in item && item["value"].N? {
        value := item["value"].n;
      }
      var valNumeric := parseFloat(value);
      if valNumeric.None? {
        DecodeAllErrExtends(items, i + 1, LenientRow(parseFloat));
        return Err(NotAFloat);
      }
      entries := entries + [Entry(date, valNumeric.value)];
      i := i + 1;
    }
    assert items[..|items|] == items;
    r := Ok(entries);
  }

  // ---------------------------------------------------------------------
  // The pipeline

  /** The requests of a run that gets all the way through, in order: no
      PutItem among them. */
  const Plan: seq<Call> := [CreateTableCall(TableName), ScanCall(TableName), PutObjectCall(PlotsBucket, PlotKey, None)]

  /** How many of the planned requests a run with this outcome makes. */
  function CallCount(o: Outcome): nat {
    match o
    case Done => 3
    case Failed(s) =>
      if s == LoadAwsConfig then 0
      else if s == CreateTable then 1
      else if s == Upload then 3
      else 2
  }

  /** The outcome of the steps from the Scan on: the first of Scan, decoding,
      rendering and upload that fails, or Done. */
  function AfterCreate(env: Env, tableExists: bool, rows: seq<Row>, entries: seq<Entry>, bucketExists: bool): Outcome {
    if env.faults.scan || !tableExists then Failed(Scan)
    else if DecodeAll(rows, LenientRow(env.parseFloat)).Err? then Failed(ConvertValue)
    else if env.render(ChartOf(entries)).None? then Failed(RenderPlot)
    else if env.faults.upload || !bucketExists then Failed(Upload)
    else Done
  }

  /** The outcome of an invocation: no AWS configuration stops it first; then
      CreateTable fails on a fault and, because the error arrives wrapped, on
      an existing table too; a table it created is there for the Scan. */
  function RunOutcome(env: Env, tablesBefore: map<string, Table>, rows: seq<Row>, entries: seq<Entry>,
                      bucketExists: bool): Outcome {
    if env.awsConfig.None? then Failed(LoadAwsConfig)
    else if env.faults.createTable || TableName in tablesBefore then Failed(CreateTable)
    else AfterCreate(env, true, rows, entries, bucketExists)
  }

  /** What the read-back yields: the rows are a scan of the table and, when
      they all decode, `entries` is their lenient decoding, in scan order. */
  ghost predicate ReadBack(table: Table, env: Env, rows: seq<Row>, order: seq<string>, entries: seq<Entry>) {
    && ScanOf(rows, table, order)
    && (DecodeAll(rows, LenientRow(env.parseFloat)).Ok? ==> DecodeAll(rows, LenientRow(env.parseFloat)) == Ok(entries))
  }

  /** A successful publication: `rows` is a scan of "item1", every row
      decoded leniently into `entries`, the chart of `entries` in scan order
      rendered, and the HTML stored as "item1.html" with no content type, the
      only change to the object store. */
  ghost predicate Published(before: map<string, Bucket>, after: map<string, Bucket>, table: Table,
                            env: Env, rows: seq<Row>, order: seq<string>, entries: seq<Entry>) {
    && ReadBack(table, env, rows, order, entries)
    && DecodeAll(rows, LenientRow(env.parseFloat)).Ok?
    && env.render(ChartOf(entries)).Some?
    && PlotsBucket in before
    && after == before[PlotsBucket := before[PlotsBucket][PlotKey := Object(env.render(ChartOf(entries)).value, None)]]
  }

  method HandleRequest(db: TableStore, s3: ObjectStore, env: Env)
    returns (outcome: Outcome, ghost calls: seq<Call>, ghost rows: seq<Row>, ghost order: seq<string>,
             ghost entries: seq<Entry>)
    requires db.Valid()
    modifies db, s3
    ensures db.Valid()
    // which step stops the run, if any
    ensures outcome == RunOutcome(env, old(db.tables), rows, entries, PlotsBucket in old(s3.buckets))
    ensures outcome == Failed(LoadAwsConfig) <==> env.awsConfig.None?
    // the requests made, in order; none of them writes an item
    ensures calls == Plan[..CallCount(outcome)]
    ensures forall c :: c in calls ==> !c.PutItemCall?
    // the table: at most created, never written
    ensures outcome == Failed(LoadAwsConfig) || outcome == Failed(CreateTable) ==> db.tables == old(db.tables)
    ensures !(outcome == Failed(LoadAwsConfig) || outcome == Failed(CreateTable)) ==>
      db.tables == Prepared(old(db.tables), TableName)
    // an existing table is reported wrapped and so ends the invocation
    ensures env.awsConfig.Some? && TableName in old(db.tables) ==> outcome == Failed(CreateTable)
    // the read-back, once the Scan succeeded
    ensures outcome in {Failed(ConvertValue), Failed(RenderPlot), Failed(Upload), Done} ==>
      TableName in db.tables && ReadBack(db.tables[TableName], env, rows, order, entries)
    // publication
    ensures outcome != Done ==> s3.buckets == old(s3.buckets)
    ensures outcome == Done ==>
      TableName in db.tables && Published(old(s3.buckets), s3.buckets, db.tables[TableName], env, rows, order, entries)
  {
    calls, rows, order, entries := [], [], [], [];
    if env.awsConfig.None? {
      return Failed(LoadAwsConfig), calls, rows, order, entries;
    }

    calls := calls + [CreateTableCall(TableName)];
    assert calls == Plan[..1] == Plan[..CallCount(Failed(CreateTable))];
    var err := db.CreateTable(TableName, env.faults.createTable);
    if err.Some? && !Tolerated(err.value) {
      return Failed(CreateTable), calls, rows, order, entries;
    }

    var stage, rows', order', entries' := PlotTable(db, s3, env);
    rows, order, entries := rows', order', entries';
    calls := calls + [ScanCall(TableName)];
    assert calls == Plan[..2];
    if stage == Done || stage == Failed(Upload) {
      calls := calls + [PutObjectCall(PlotsBucket, PlotKey, None)];
      assert calls == Plan;
    }
    assert calls == Plan[..CallCount(stage)];
    outcome := stage;
  }

  /**
   * The second half of `HandleRequest`, once the table is in place: scan
   * "item1", decode the items leniently and publish their chart, unsorted,
   * as "item1.html". Only the object store changes.
   */
  method PlotTable(db: TableStore, s3: ObjectStore, env: Env)
    returns (outcome: Outcome, ghost rows: seq<Row>, ghost order: seq<string>, ghost entries: seq<Entry>)
    modifies s3
    ensures outcome == AfterCreate(env, TableName in db.tables, rows, entries, PlotsBucket in old(s3.buckets))
    ensures !env.faults.scan && TableName in db.tables ==> ReadBack(db.tables[TableName], env, rows, order, entries)
    ensures outcome != Done ==> s3.buckets == old(s3.buckets)
    ensures outcome == Done ==>
      TableName in db.tables && Published(old(s3.buckets), s3.buckets, db.tables[TableName], env, rows, order, entries)
  {
    rows, order, entries := [], [], [];
    var items, scanErr, scanOrder := db.Scan(TableName, env.faults.scan);
    if scanErr.Some? {
      return Failed(Scan), rows, order, entries;
    }
    rows, order := items, scanOrder;

    var decoded := LenientDecodeRows(items, env.parseFloat);
    if decoded.Err? {
      return Failed(ConvertValue), rows, order, entries;
    }
    var decodedEntries := decoded.value;
    entries := decodedEntries;

    var buf, plotErr := GeneratePlot(decodedEntries, env.render);
    if plotErr {
      return Failed(RenderPlot), rows, order, entries;
    }

    var upErr := s3.PutObject(PlotsBucket, PlotKey, buf, None, env.faults.upload);
    if upErr.Some? {
      return Failed(Upload), rows, order, entries;
    }
    outcome := Done;
  }
}
