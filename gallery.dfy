/**
 * The gallery's list of charts, shared by both gateways: one item per listed
 * object key, carrying the key as its name and the object's public URL
 * "https://<bucket>.s3.<region>.amazonaws.com/<key>" as its path.
 */
module Gallery {

  /** One entry of the page: a link target and its label. */
  datatype Item = Item(path: string, name: string)

  /** The public URL of `key` in `bucket`, virtual-hosted style. */
  function ObjectUrl(bucket: string, region: string, key: string): (url: string)
    ensures |url| == |bucket| + |region| + |key| + 27
    ensures url[..8] == "https://" && url[8..8 + |bucket|] == bucket
    ensures url[|url| - |key|..] == key
  {
    "https://" + bucket + ".s3." + region + ".amazonaws.com/" + key
  }

  /** Everything of the URL before the key. */
  function UrlPrefix(bucket: string, region: string): (p: string)
    ensures |p| == |bucket| + |region| + 27
    ensures p[..8] == "https://" && p[8..8 + |bucket|] == bucket
  {
    "https://" + bucket + ".s3." + region + ".amazonaws.com/"
  }

  /** The key is the URL's last |key| characters, and everything before it
      is fixed by the bucket and region. */
  lemma ObjectUrlSplits(bucket: string, region: string, key: string)
    ensures var url := ObjectUrl(bucket, region, key);
      && |url| == |UrlPrefix(bucket, region)| + |key|
      && url[..|UrlPrefix(bucket, region)|] == UrlPrefix(bucket, region)
      && url[|UrlPrefix(bucket, region)|..] == key
  {
    var url, p := ObjectUrl(bucket, region, key), UrlPrefix(bucket, region);
    assert url == p + key;
    assert url[..|p|] == p;
    assert url[|p|..] == key;
  }

  /** Within one bucket and region, distinct objects get distinct URLs. */
  lemma ObjectUrlInjective(bucket: string, region: string, k1: string, k2: string)
    requires ObjectUrl(bucket, region, k1) == ObjectUrl(bucket, region, k2)
    ensures k1 == k2
  {
    ObjectUrlSplits(bucket, region, k1);
    ObjectUrlSplits(bucket, region, k2);
  }

  /** The item for one listed key. */
  function ItemFor(bucket: string, region: string, key: string): Item {
    Item(ObjectUrl(bucket, region, key), key)
  }

  /** The loop filling `data.Items`: one item per listed key, in listing order. */
  method BuildItems(bucket: string, region: string, keys: seq<string>) returns (items: seq<Item>)
    ensures |items| == |keys|
    ensures forall i :: 0 <= i < |keys| ==> items[i].name == keys[i] && items[i].path == ObjectUrl(bucket, region, keys[i])
  {
    items := [];
    for i := 0 to |keys|
      invariant |items| == i
      invariant forall j :: 0 <= j < i ==> items[j] == ItemFor(bucket, region, keys[j])
    {
      items := items + [ItemFor(bucket, region, keys[i])];
    }
  }

  /** Names are the keys, so a listing without repeated keys gives a page
      without repeated links. */
  lemma DistinctKeysDistinctPaths(bucket: string, region: string, keys: seq<string>, items: seq<Item>)
    requires |items| == |keys|
    requires forall i :: 0 <= i < |keys| ==> items[i].name == keys[i] && items[i].path == ObjectUrl(bucket, region, keys[i])
    requires forall i, j :: 0 <= i < j < |keys| ==> keys[i] != keys[j]
    ensures forall i, j :: 0 <= i < j < |items| ==> items[i].path != items[j].path
  {
    forall i, j | 0 <= i < j < |items|
      ensures items[i].path != items[j].path
    {
      if items[i].path == items[j].path {
        ObjectUrlInjective(bucket, region, keys[i], keys[j]);
      }
    }
  }
}
