/**
 * The object storage service: the handlers publish charts to it with
 * PutObject and the gateways list it with ListObjectsV2. A bucket is a map
 * from object key to object; a missing bucket is refused (NoSuchBucket), and
 * failures from outside the store are decided by the caller's `fault` flag.
 */
module ObjectStorage {
  import opened Common

  /** A stored object: its bytes and the Content-Type it was uploaded with, if any. */
  datatype Object = Object(body: Bytes, contentType: Option<string>)

  datatype S3Error = NoSuchBucket | ServiceFailure | OperationError(cause: S3Error)

  type Bucket = map<string, Object>

  class ObjectStore {
    /** Bucket name to the bucket's objects. */
    var buckets: map<string, Bucket>

    constructor (initial: map<string, Bucket>)
      ensures buckets == initial
    {
      buckets := initial;
    }

    /** PutObject: creates or overwrites the object under `key`. */
    method PutObject(bucket: string, key: string, body: Bytes, contentType: Option<string>, fault: bool)
      returns (err: Option<S3Error>)
      modifies this
      ensures err.None? <==> !fault && bucket in old(buckets)
      ensures err.None? ==>
        buckets == old(buckets)[bucket := old(buckets)[bucket][key := Object(body, contentType)]]
      ensures err.Some? ==> buckets == old(buckets)
    {
      if fault {
        err := Some(OperationError(ServiceFailure));
      } else if bucket !in buckets {
        err := Some(OperationError(NoSuchBucket));
      } else {
        buckets := buckets[bucket := buckets[bucket][key := Object(body, contentType)]];
        err := None;
      }
    }

    /** ListObjectsV2 with no continuation: the keys of the bucket, each once. */
    method ListObjects(bucket: string, fault: bool) returns (keys: seq<string>, err: Option<S3Error>)
      ensures err.None? <==> !fault && bucket in buckets
      ensures err.None? ==> Enumerates(keys, buckets[bucket].Keys)
      ensures err.Some? ==> keys == []
    {
      if fault {
        return [], Some(OperationError(ServiceFailure));
      } else if bucket !in buckets {
        return [], Some(OperationError(NoSuchBucket));
      }
      keys := Enumerate(buckets[bucket].Keys);
      err := None;
    }
  }
}
