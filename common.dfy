/** Values shared by the ingest handlers and the gallery gateways. */
module Common {

  /** The usual Some/None wrapper; usable with `:-`. */
  datatype Option<+T> = None | Some(value: T) {
    predicate IsFailure() { None? }
    function PropagateFailure<U>(): Option<U> requires None? { None }
    function Extract(): T requires Some? { value }
  }

  /** A value or the error that stopped its computation. */
  datatype Result<+T, +E> = Ok(value: T) | Err(error: E)

  /** A 32-bit float observation (`float32` in the handlers). Kept opaque:
      nothing in the pipeline does arithmetic on it. */
  type Value(==, !new)

  /** One point of a series' history: the `Entry` struct of both handlers. */
  datatype Entry = Entry(date: string, value: Value)

  /** The decoded `app.config` file: the bucket that charts are published to. */
  datatype AppConfig = AppConfig(appBucket: string)

  /** Reading and decoding the embedded `app.config`: two distinct ways to fail. */
  datatype ConfigLoad = ConfigReadFails | ConfigParseFails | ConfigLoaded(config: AppConfig)

  /** What the AWS SDK's default configuration loader yields when it succeeds. */
  datatype AwsConfig = AwsConfig(region: string)

  type Bytes = seq<bv8>

  /** `order` lists every element of `keys` exactly once, in some order: how
      an unordered store hands its keys out. */
  ghost predicate Enumerates<K(!new)>(order: seq<K>, keys: set<K>) {
    && (forall i, j :: 0 <= i < j < |order| ==> order[i] != order[j])
    && (forall k :: k in order <==> k in keys)
  }

  /** A listing without repetition has as many elements as the set it lists. */
  lemma {:induction false} EnumeratesSize<K(!new)>(order: seq<K>, keys: set<K>)
    requires Enumerates(order, keys)
    ensures |order| == |keys|
  {
    if order != [] {
      var last := order[|order| - 1];
      var front := order[..|order| - 1];
      assert last !in front by {
        forall i | 0 <= i < |front| ensures front[i] != last {
          assert order[i] == front[i];
        }
      }
      assert Enumerates(front, keys - {last}) by {
        forall k ensures k in front <==> k in keys - {last} {
          assert k in order <==> k in front || k == last by {
            assert order == front + [last];
          }
        }
      }
      EnumeratesSize(front, keys - {last});
    }
  }

  /** Lists a finite set in an arbitrary order (each choice is free). */
  method Enumerate<K(==,!new)>(keys: set<K>) returns (order: seq<K>)
    ensures Enumerates(order, keys)
  {
    order := [];
    var rest := keys;
    while rest != {}
      invariant rest <= keys
      invariant forall i, j :: 0 <= i < j < |order| ==> order[i] != order[j]
      invariant forall k :: k in order <==> k in keys - rest
      decreases rest
    {
      var k :| k in rest;
      assert k !in order;
      order := order + [k];
      rest := rest - {k};
    }
  }
}
