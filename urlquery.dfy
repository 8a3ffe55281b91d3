/** The query-string helpers, on the query as a finite map. A parsed query
    maps each key to its value, or to no value for a bare key; serialising
    with `skipNull` drops the keys without a value. Both helpers keep the
    current path. */
module UrlQuery {
  import opened Wrappers

  /** A query as the parser returns it. */
  type Parsed = map<string, Option<string>>

  /** A query as serialised into the URL. */
  type Query = map<string, string>

  datatype Url = Url(path: string, query: Query)

  /** Serialising with `skipNull`: keys without a value are left out. */
  function Serialize(q: Parsed): (r: Query)
    ensures forall k :: k in r <==> k in q && q[k].Some?
    ensures forall k :: k in r ==> r[k] == q[k].value
  {
    map k | k in q && q[k].Some? :: q[k].value
  }

  /** A query read back as it was written: every key has a value. */
  function Parse(q: Query): (r: Parsed)
    ensures Serialize(r) == q
  {
    var r := map k | k in q :: Some(q[k]);
    assert Serialize(r) == q;
    r
  }

  /** `formUrlQuery`: the parsed query with `key` set to `value`, or with
      `key` dropped when the value is null. */
  function FormUrlQuery(params: Parsed, path: string, key: string, value: Option<string>): (r: Url)
    ensures r.path == path
    ensures value.Some? ==> key in r.query && r.query[key] == value.value
    ensures value.None? ==> key !in r.query
    ensures forall k :: k != key ==> (k in r.query <==> k in params && params[k].Some?)
    ensures forall k :: k != key && k in r.query ==> r.query[k] == params[k].value
  {
    Url(path, Serialize(params[key := value]))
  }

  /** The query without `keys`. */
  function WithoutKeys(q: Parsed, keys: seq<string>): (r: Parsed)
    ensures forall k :: k in r <==> k in q && k !in keys
    ensures forall k :: k in r ==> r[k] == q[k]
  {
    map k | k in q && k !in keys :: q[k]
  }

  /** `removeKeysFromQuery`: deletes the keys one by one from the parsed
      query, then serialises it. */
  method RemoveKeysFromQuery(params: Parsed, path: string, keys: seq<string>) returns (r: Url)
    ensures r == Url(path, Serialize(WithoutKeys(params, keys)))
  {
    var current := params;
    var i := 0;
    while i < |keys|
      invariant 0 <= i <= |keys|
      invariant current == WithoutKeys(params, keys[..i])
    {
      current := current - {keys[i]};
      assert keys[..i + 1] == keys[..i] + [keys[i]];
      i := i + 1;
    }
    assert keys[..i] == keys;
    r := Url(path, Serialize(current));
  }

  /** What `removeKeysFromQuery` yields as a query: none of `keys`, and every
      other key with a value keeps it. */
  lemma RemovedKeysContract(params: Parsed, keys: seq<string>)
    ensures var q := Serialize(WithoutKeys(params, keys));
            && (forall k :: k in keys ==> k !in q)
            && (forall k :: k !in keys && k in params && params[k].Some? ==> k in q && q[k] == params[k].value)
            && (forall k :: k in q ==> k in params)
  {
  }

  /** Removing the same keys twice is removing them once. */
  lemma WithoutKeysIdempotent(q: Parsed, keys: seq<string>)
    ensures WithoutKeys(WithoutKeys(q, keys), keys) == WithoutKeys(q, keys)
  {
  }

  /** Removing keys that are absent changes nothing. */
  lemma WithoutAbsentKeys(q: Parsed, keys: seq<string>)
    requires forall k :: k in keys ==> k !in q
    ensures WithoutKeys(q, keys) == q
  {
  }

  /** Setting a key and then removing it leaves the other keys as they
      were. */
  lemma SetThenRemove(params: Parsed, key: string, value: string)
    ensures WithoutKeys(params[key := Some(value)], [key]) == WithoutKeys(params, [key])
  {
  }
}
