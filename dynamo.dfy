/**
 * The key-value table service the ingest handlers talk to, reduced to the
 * three requests they make (CreateTable, PutItem, Scan). Every table the
 * handlers create has the string attribute `date` as its only (hash) key, so
 * a table is a map from `date` values to items.
 *
 * Whether a request fails for reasons outside the store's contents is
 * decided by the caller's `fault` flag: throttling, the network, a table
 * still being created, and the service's checks of the request's own input
 * (an empty key value, a table name that is not 3 to 255 characters of
 * letters, digits, `_`, `-` and `.`). Failures that the store's own state
 * decides (the table exists, the table is missing, the key attribute is
 * absent or not a string) follow from that state.
 */
module Dynamo {
  import opened Common

  /** An attribute value: string (S), number written as text (N), or any other kind. */
  datatype Attr = S(s: string) | N(n: string) | Other

  /** An item: attribute name to attribute value. */
  type Row = map<string, Attr>

  /** A table: the value of each item's `date` key to the item. */
  type Table = map<string, Row>

  /** Service errors. The SDK hands every service error to the caller wrapped
      in an operation error that records which call failed. */
  datatype DbError =
    | ResourceInUse
    | ResourceNotFound
    | Validation
    | ServiceFailure
    | OperationError(cause: DbError)

  /** The error at the end of a chain of operation wrappers. */
  function Innermost(e: DbError): (r: DbError)
    ensures !r.OperationError?
  {
    match e
    case OperationError(cause) => Innermost(cause)
    case _ => e
  }

  /** `errors.As(err, &resourceInUseException)`: a ResourceInUse error
      somewhere along the chain of wrapped errors. Only the operation
      wrapper wraps, so that is the error the chain ends in. */
  predicate HasResourceInUse(e: DbError)
    ensures HasResourceInUse(e) <==> Innermost(e) == ResourceInUse
  {
    match e
    case ResourceInUse => true
    case OperationError(cause) => HasResourceInUse(cause)
    case _ => false
  }

  /** The item the ingest handler writes for one observation. */
  function Observation(date: string, valueText: string): Row {
    map["date" := S(date), "value" := N(valueText)]
  }

  /** PutItem's effect on a table: replace or add the item under its key. */
  function Upsert(table: Table, item: Row): (t: Table)
    requires "date" in item && item["date"].S?
    ensures t.Keys == table.Keys + {item["date"].s}
    ensures t[item["date"].s] == item
    ensures forall k :: k in table && k != item["date"].s ==> t[k] == table[k]
  {
    table[item["date"].s := item]
  }

  /** The item carries the string `k` as its `date` key. */
  predicate FiledUnder(item: Row, k: string) {
    "date" in item && item["date"] == S(k)
  }

  /** Every item is filed under the `date` string it carries. */
  ghost predicate KeyedByDate(tables: map<string, Table>) {
    forall name, k :: name in tables && k in tables[name] ==> FiledUnder(tables[name][k], k)
  }

  /** `rows` is what a Scan of `table` returns: each item once, in the order
      of the keys in `order`. */
  ghost predicate ScanOf(rows: seq<Row>, table: Table, order: seq<string>) {
    && Enumerates(order, table.Keys)
    && |rows| == |order|
    && forall i :: 0 <= i < |rows| ==> rows[i] == table[order[i]]
  }

  /** A Scan returns exactly as many items as the table holds. */
  lemma ScanSize(rows: seq<Row>, table: Table, order: seq<string>)
    requires ScanOf(rows, table, order)
    ensures |rows| == |table|
  {
    EnumeratesSize(order, table.Keys);
  }

  /** In a store keyed by date, a Scan returns items that each carry, as a
      string `date`, the key they were listed under. */
  lemma ScanRowsFiled(tables: map<string, Table>, name: string, rows: seq<Row>, order: seq<string>)
    requires KeyedByDate(tables) && name in tables
    requires ScanOf(rows, tables[name], order)
    ensures forall i :: 0 <= i < |rows| ==> FiledUnder(rows[i], order[i])
  {
    forall i | 0 <= i < |rows|
      ensures FiledUnder(rows[i], order[i])
    {
      assert order[i] in order;
    }
  }

  /** The second of two writes under the same date wins, and the table holds one item for it. */
  lemma UpsertLastWriteWins(table: Table, date: string, v1: string, v2: string)
    ensures var t := Upsert(Upsert(table, Observation(date, v1)), Observation(date, v2));
      t == Upsert(table, Observation(date, v2)) && t[date]["value"] == N(v2)
      && |t| == if date in table then |table| else |table| + 1
  {
    var item := Observation(date, v2);
    var t := Upsert(Upsert(table, Observation(date, v1)), item);
    assert t == table[date := item];
    if date in table {
      assert t.Keys == table.Keys;
      assert |t| == |t.Keys| == |table.Keys| == |table|;
    } else {
      assert t.Keys == table.Keys + {date};
      assert |t| == |t.Keys| == |table.Keys| + 1 == |table| + 1;
    }
  }

  class TableStore {
    /** Table name to table contents. */
    var tables: map<string, Table>

    ghost predicate Valid()
      reads this
    {
      KeyedByDate(tables)
    }

    constructor (initial: map<string, Table>)
      requires KeyedByDate(initial)
      ensures Valid() && tables == initial
    {
      tables := initial;
    }

    /** CreateTable with `date` (string) as hash key and on-demand billing.
        An existing table is reported as ResourceInUse and left as it is. */
    method CreateTable(name: string, fault: bool) returns (err: Option<DbError>)
      requires Valid()
      modifies this
      ensures Valid()
      ensures fault ==> err == Some(OperationError(ServiceFailure)) && tables == old(tables)
      ensures !fault && name in old(tables) ==>
        err == Some(OperationError(ResourceInUse)) && tables == old(tables)
      ensures !fault && name !in old(tables) ==>
        err == None && tables == old(tables)[name := map[]]
    {
      if fault {
        err := Some(OperationError(ServiceFailure));
      } else if name in tables {
        err := Some(OperationError(ResourceInUse));
      } else {
        ghost var before := tables;
        tables := tables[name := map[]];
        err := None;
        forall n, k | n in tables && k in tables[n]
          ensures FiledUnder(tables[n][k], k)
        {
          assert n != name && n in before && k in before[n];
        }
      }
    }

    /** PutItem: upsert by the `date` key; a missing table or a missing string
        key attribute is refused and nothing changes. */
    method PutItem(name: string, item: Row, fault: bool) returns (err: Option<DbError>)
      requires Valid()
      modifies this
      ensures Valid()
      ensures err.None? <==> !fault && name in old(tables) && "date" in item && item["date"].S?
      ensures err.None? ==> tables == old(tables)[name := Upsert(old(tables)[name], item)]
      ensures err.Some? ==> tables == old(tables)
    {
      if fault {
        err := Some(OperationError(ServiceFailure));
      } else if name !in tables {
        err := Some(OperationError(ResourceNotFound));
      } else if !("date" in item && item["date"].S?) {
        err := Some(OperationError(Validation));
      } else {
        ghost var before := tables;
        tables := tables[name := Upsert(tables[name], item)];
        err := None;
        forall n, k | n in tables && k in tables[n]
          ensures FiledUnder(tables[n][k], k)
        {
          if n != name || k != item["date"].s {
            assert n in before && k in before[n] && tables[n][k] == before[n][k];
          }
        }
      }
    }

    /** One Scan request with no paging: every item of the table, in an
        order the caller cannot predict (`order` records it). */
    method Scan(name: string, fault: bool) returns (rows: seq<Row>, err: Option<DbError>, ghost order: seq<string>)
      ensures err.None? <==> !fault && name in tables
      ensures err.None? ==> ScanOf(rows, tables[name], order)
      ensures err.Some? ==> rows == []
      ensures Valid() && err.None? ==> forall i :: 0 <= i < |rows| ==> "date" in rows[i] && rows[i]["date"].S?
    {
      if fault {
        return [], Some(OperationError(ServiceFailure)), [];
      } else if name !in tables {
        return [], Some(OperationError(ResourceNotFound)), [];
      }
      var table := tables[name];
      var keys := Enumerate(table.Keys);
      rows := [];
      var i := 0;
      while i < |keys|
        invariant 0 <= i <= |keys|
        invariant |rows| == i
        invariant forall j :: 0 <= j < i ==> rows[j] == table[keys[j]]
      {
        rows := rows + [table[keys[i]]];
        i := i + 1;
      }
      err, order := None, keys;
      if Valid() {
        ScanRowsFiled(tables, name, rows, order);
      }
    }
  }
}
