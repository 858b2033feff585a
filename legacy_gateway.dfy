/**
 * The earlier gallery server (`homeHandler` of the legacy gateway, served by
 * net/http): parse the page template (panicking if it does not parse), load
 * the AWS configuration, list the fixed bucket "price-tracker-plots", turn
 * the keys into items and execute the template straight into the response
 * writer, answering with http.Error if execution fails. A configuration or
 * listing failure ends the handler without writing anything.
 */
module LegacyGateway {
  import opened Common
  import opened ObjectStorage
  import opened Gallery

  const PlotsBucket := "price-tracker-plots"

  /**
   * The part of net/http's ResponseWriter the handler uses. The status line
   * and the header go out with the first WriteHeader or Write; later header
   * changes and status codes have no effect on what was sent.
   */
  class ResponseWriter {
    /** `Header()`: the header map the next status line will carry. */
    var header: map<string, string>
    /** The status sent, or 0 while nothing has been sent. */
    var status: int
    /** The header as it went out with the status line. */
    var sentHeader: map<string, string>
    var body: string

    constructor ()
      ensures header == map[] && status == 0 && sentHeader == map[] && body == ""
    {
      header, status, sentHeader, body := map[], 0, map[], "";
    }

    method SetHeader(key: string, value: string)
      modifies this
      ensures header == old(header)[key := value]
      ensures status == old(status) && sentHeader == old(sentHeader) && body == old(body)
    {
      header := header[key := value];
    }

    method DelHeader(key: string)
      modifies this
      ensures header == old(header) - {key}
      ensures status == old(status) && sentHeader == old(sentHeader) && body == old(body)
    {
      header := header - {key};
    }

    /** Sends the status line and header, unless they were sent already. */
    method WriteHeader(code: int)
      requires 100 <= code <= 999
      modifies this
      ensures old(status) == 0 ==> status == code && sentHeader == header
      ensures old(status) != 0 ==> status == old(status) && sentHeader == old(sentHeader)
      ensures header == old(header) && body == old(body)
    {
      if status == 0 {
        status, sentHeader := code, header;
      }
    }

    /** Appends to the body; a first write sends status 200 before it. */
    method Write(data: string)
      modifies this
      ensures old(status) == 0 ==> status == 200 && sentHeader == header
      ensures old(status) != 0 ==> status == old(status) && sentHeader == old(sentHeader)
      ensures header == old(header) && body == old(body) + data
    {
      WriteHeader(200);
      body := body + data;
    }
  }

  /** net/http's `Error`: a plain-text error message with the given status. */
  method HttpError(w: ResponseWriter, error: string, code: int)
    requires 100 <= code <= 999
    modifies w
    ensures w.header == (old(w.header) - {"Content-Length"})
      ["Content-Type" := "text/plain; charset=utf-8"]["X-Content-Type-Options" := "nosniff"]
    ensures old(w.status) == 0 ==> w.status == code && w.sentHeader == w.header
    ensures old(w.status) != 0 ==> w.status == old(w.status) && w.sentHeader == old(w.sentHeader)
    ensures w.body == old(w.body) + error + "\n"
  {
    w.DelHeader("Content-Length");
    w.SetHeader("Content-Type", "text/plain; charset=utf-8");
    w.SetHeader("X-Content-Type-Options", "nosniff");
    w.WriteHeader(code);
    w.Write(error + "\n");
  }

  /** What executing the template into the writer did: the text it wrote,
      and the error that stopped it, if any. */
  datatype Execution = Execution(output: string, error: Option<string>)

  /** Everything the handler depends on besides the object store and the writer. */
  datatype Env = Env(
    templateParses: bool,              // template.ParseFS of the embedded page
    awsConfig: Option<AwsConfig>,
    listFault: bool,                   // ListObjectsV2 fails for reasons outside the store
    execute: seq<Item> -> Execution)   // the parsed template's Execute

  /** How the handler ends: by a panic, or by returning. */
  datatype Ending = Panicked | Returned

  method HomeHandler(w: ResponseWriter, s3: ObjectStore, env: Env)
    returns (ending: Ending, ghost listed: bool, ghost keys: seq<string>, ghost items: seq<Item>)
    requires w.status == 0 && w.body == ""
    modifies w
    ensures ending == Panicked <==> !env.templateParses
    // the bucket is listed only after the template and configuration are in hand
    ensures listed <==> env.templateParses && env.awsConfig.Some?
    // panics and silent returns write nothing
    ensures !listed || env.listFault || PlotsBucket !in s3.buckets ==>
      w.status == 0 && w.body == "" && w.header == old(w.header)
    ensures listed && !env.listFault && PlotsBucket in s3.buckets ==>
      var region, exec := env.awsConfig.value.region, env.execute(items);
      && Enumerates(keys, s3.buckets[PlotsBucket].Keys)
      && |items| == |keys|
      && (forall i :: 0 <= i < |keys| ==> items[i] == Item(ObjectUrl(PlotsBucket, region, keys[i]), keys[i]))
      && (exec.error.None? ==> w.body == exec.output && w.status == (if exec.output == "" then 0 else 200))
      // an error before any output: a 500 with the error text
      && (exec.error.Some? && exec.output == "" ==>
            w.status == 500 && w.body == exec.error.value + "\n"
            && "Content-Type" in w.sentHeader && w.sentHeader["Content-Type"] == "text/plain; charset=utf-8")
      // an error after some output: the 200 has gone out, the text is appended
      && (exec.error.Some? && exec.output != "" ==>
            w.status == 200 && w.body == exec.output + exec.error.value + "\n")
  {
    listed, keys, items := false, [], [];
    if !env.templateParses {
      return Panicked, listed, keys, items;
    }
    if env.awsConfig.None? {
      return Returned, listed, keys, items;
    }
    var region := env.awsConfig.value.region;

    listed := true;
    var listedKeys, listErr := s3.ListObjects(PlotsBucket, env.listFault);
    if listErr.Some? {
      return Returned, listed, keys, items;
    }
    keys := listedKeys;

    var pageItems := BuildItems(PlotsBucket, region, listedKeys);
    items := pageItems;

    var exec := env.execute(pageItems);
    if exec.output != "" {
      w.Write(exec.output);
    }
    if exec.error.Some? {
      HttpError(w, exec.error.value, 500);
    }
    ending := Returned;
  }
}
