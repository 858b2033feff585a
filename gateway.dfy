/**
 * The gallery gateway (`handleRequest` of the current gateway): read and
 * parse the embedded app config, parse the page template, load the AWS
 * configuration, list the app bucket, turn the keys into items and execute
 * the template on them. Each failing step answers 500 with its own body and
 * hands back the step's error; success answers 200 with the page as HTML.
 */
module Gateway {
  import opened Common
  import opened ObjectStorage
  import opened Gallery

  /** The API Gateway proxy response. */
  datatype Response = Response(statusCode: int, headers: map<string, string>, body: string)

  /** The error handed back beside a failure response: which step failed. */
  datatype Failure =
    | ConfigReadFailure
    | ConfigParseFailure
    | TemplateParseFailure
    | AwsConfigFailure
    | ListFailure(cause: S3Error)
    | ExecuteFailure

  /** Everything the handler depends on besides the object store. */
  datatype Env = Env(
    appConfig: ConfigLoad,
    templateParses: bool,                  // template.ParseFS of the embedded page
    awsConfig: Option<AwsConfig>,
    listFault: bool,                       // ListObjectsV2 fails for reasons outside the store
    execute: seq<Item> -> Option<string>)  // the parsed template's Execute

  function ServerError(body: string): Response {
    Response(500, map[], body)
  }

  /** The failure, if any, before the listing: the steps' order decides
      which one is reported. */
  function SetupFailure(env: Env): (f: Option<(Failure, string)>)
    ensures f.None? <==> env.appConfig.ConfigLoaded? && env.templateParses && env.awsConfig.Some?
  {
    if env.appConfig.ConfigReadFails? then Some((ConfigReadFailure, "Error reading config file"))
    else if env.appConfig.ConfigParseFails? then Some((ConfigParseFailure, "Error parsing config file"))
    else if !env.templateParses then Some((TemplateParseFailure, "Error parsing template"))
    else if env.awsConfig.None? then Some((AwsConfigFailure, "Error loading config"))
    else None
  }

  method HandleRequest(s3: ObjectStore, env: Env)
    returns (resp: Response, err: Option<Failure>, ghost listed: bool, ghost keys: seq<string>, ghost items: seq<Item>)
    // each step's failure, in the steps' order
    ensures env.appConfig.ConfigReadFails? ==>
      resp == ServerError("Error reading config file") && err == Some(ConfigReadFailure)
    ensures env.appConfig.ConfigParseFails? ==>
      resp == ServerError("Error parsing config file") && err == Some(ConfigParseFailure)
    ensures env.appConfig.ConfigLoaded? && !env.templateParses ==>
      resp == ServerError("Error parsing template") && err == Some(TemplateParseFailure)
    ensures env.appConfig.ConfigLoaded? && env.templateParses && env.awsConfig.None? ==>
      resp == ServerError("Error loading config") && err == Some(AwsConfigFailure)
    // the bucket is listed only once everything before it succeeded
    ensures listed <==> env.appConfig.ConfigLoaded? && env.templateParses && env.awsConfig.Some?
    ensures listed && (env.listFault || env.appConfig.config.appBucket !in s3.buckets) ==>
      resp == ServerError("Error listing objects") && err.Some? && err.value.ListFailure?
    ensures listed && !env.listFault && env.appConfig.config.appBucket in s3.buckets ==>
      var bucket, region := env.appConfig.config.appBucket, env.awsConfig.value.region;
      && Enumerates(keys, s3.buckets[bucket].Keys)
      && |items| == |keys|
      && (forall i :: 0 <= i < |keys| ==> items[i] == Item(ObjectUrl(bucket, region, keys[i]), keys[i]))
      && (env.execute(items).None? ==> resp == ServerError("Error executing template") && err == Some(ExecuteFailure))
      && (env.execute(items).Some? ==>
            resp == Response(200, map["Content-Type" := "text/html"], env.execute(items).value) && err == None)
    // a failure is always a 500 with an error, a success a 200 without one
    ensures err.Some? <==> resp.statusCode == 500
    ensures err.None? <==> resp.statusCode == 200
  {
    listed, keys, items := false, [], [];
    var setup := SetupFailure(env);
    if setup.Some? {
      return ServerError(setup.value.1), Some(setup.value.0), listed, keys, items;
    }
    var appBucket, region := env.appConfig.config.appBucket, env.awsConfig.value.region;

    listed := true;
    var listedKeys, listErr := s3.ListObjects(appBucket, env.listFault);
    if listErr.Some? {
      return ServerError("Error listing objects"), Some(ListFailure(listErr.value)), listed, keys, items;
    }
    keys := listedKeys;

    var pageItems := BuildItems(appBucket, region, listedKeys);
    items := pageItems;

    var page := env.execute(pageItems);
    if page.None? {
      return ServerError("Error executing template"), Some(ExecuteFailure), listed, keys, items;
    }
    resp, err := Response(200, map["Content-Type" := "text/html"], page.value), None;
  }
}
