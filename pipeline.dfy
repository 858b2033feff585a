/**
 * What the two ingest handlers share beyond the stores: the trace of service
 * requests an invocation makes, the table state after CreateTable, and the
 * front-to-back decoding of scanned items, parameterised by how one item is
 * turned into an Entry (strictly in the current handler, leniently in the
 * legacy one).
 */
module Pipeline {
  import opened Common
  import opened Dynamo

  /** The service requests an invocation makes, in order. */
  datatype Call =
    | CreateTableCall(table: string)
    | PutItemCall(table: string, item: Row)
    | ScanCall(table: string)
    | PutObjectCall(bucket: string, key: string, contentType: Option<string>)

  /** The tables after CreateTable, whether it created the table or found it. */
  function Prepared(tables: map<string, Table>, name: string): map<string, Table> {
    if name in tables then tables else tables[name := map[]]
  }

  /** Why an item could not be turned into an Entry. */
  datatype RowError = DateNotString | ValueNotNumber | NotAFloat

  /** The items decoded front to back; the first bad item's error ends it. */
  function DecodeAll<E>(items: seq<Row>, decode: Row -> Result<Entry, E>): Result<seq<Entry>, E> {
    if items == [] then Ok([])
    else match DecodeAll(items[..|items| - 1], decode)
      case Err(e) => Err(e)
      case Ok(entries) =>
        match decode(items[|items| - 1])
        case Err(e) => Err(e)
        case Ok(entry) => Ok(entries + [entry])
  }

  /** Decoding succeeds exactly when every item decodes, and then yields one
      Entry per item, in item order. */
  lemma {:induction false} DecodeAllOk<E>(items: seq<Row>, decode: Row -> Result<Entry, E>)
    ensures DecodeAll(items, decode).Ok? <==> forall i :: 0 <= i < |items| ==> decode(items[i]).Ok?
    ensures DecodeAll(items, decode).Ok? ==>
      var entries := DecodeAll(items, decode).value;
      |entries| == |items| && forall i :: 0 <= i < |items| ==> entries[i] == decode(items[i]).value
  {
    if items != [] {
      var front := items[..|items| - 1];
      DecodeAllOk(front, decode);
      assert forall i :: 0 <= i < |front| ==> front[i] == items[i];
    }
  }

  /** A failed decoding reports the error of the first item that does not decode. */
  lemma {:induction false} DecodeAllFirstError<E>(items: seq<Row>, decode: Row -> Result<Entry, E>)
    requires DecodeAll(items, decode).Err?
    ensures exists i ::
      && 0 <= i < |items|
      && decode(items[i]) == Err(DecodeAll(items, decode).error)
      && forall j :: 0 <= j < i ==> decode(items[j]).Ok?
  {
    var front := items[..|items| - 1];
    var e := DecodeAll(items, decode).error;
    if DecodeAll(front, decode).Err? {
      DecodeAllFirstError(front, decode);
      var i :| 0 <= i < |front| && decode(front[i]) == Err(e)
        && forall j :: 0 <= j < i ==> decode(front[j]).Ok?;
      assert items[i] == front[i];
      assert forall j :: 0 <= j < i ==> items[j] == front[j];
    } else {
      DecodeAllOk(front, decode);
      var i := |items| - 1;
      assert forall j :: 0 <= j < i ==> items[j] == front[j];
    }
  }

  /** Once a prefix fails to decode, the whole sequence fails with the same error. */
  lemma {:induction false} DecodeAllErrExtends<E>(items: seq<Row>, k: int, decode: Row -> Result<Entry, E>)
    requires 0 <= k <= |items|
    requires DecodeAll(items[..k], decode).Err?
    ensures DecodeAll(items, decode) == DecodeAll(items[..k], decode)
    decreases |items| - k
  {
    if k < |items| {
      assert items[..k + 1][..k] == items[..k];
      DecodeAllErrExtends(items, k + 1, decode);
    } else {
      assert items[..k] == items;
    }
  }
}
