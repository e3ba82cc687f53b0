/** Python values as the message builders and the request helpers handle
    them: strings, numbers, lists and dictionaries. A dictionary keeps its
    keys in insertion order, as Python's `dict` does. */
module Json {
  import opened Wrappers

  datatype Json =
    | JNull
    | JBool(b: bool)
    | JInt(i: int)
    | JString(s: string)
    | JArray(items: seq<Json>)
    | JObject(fields: seq<(string, Json)>)

  /** The keys of a dictionary, in insertion order. */
  function Keys(fields: seq<(string, Json)>): (ks: seq<string>)
    ensures |ks| == |fields|
  {
    if fields == [] then [] else [fields[0].0] + Keys(fields[1..])
  }

  /** `d[key]`; `None` where Python raises KeyError. */
  function Get(fields: seq<(string, Json)>, key: string): (r: Option<Json>)
    ensures r.None? <==> key !in Keys(fields)
  {
    if fields == [] then None
    else if fields[0].0 == key then Some(fields[0].1)
    else Get(fields[1..], key)
  }

  /** `d[key] = value`: an existing key keeps its place and takes the new
      value; a new key goes at the end. */
  function Put(fields: seq<(string, Json)>, key: string, value: Json): (r: seq<(string, Json)>)
    ensures key in Keys(fields) ==> Keys(r) == Keys(fields)
    ensures key !in Keys(fields) ==> Keys(r) == Keys(fields) + [key]
  {
    if fields == [] then [(key, value)]
    else if fields[0].0 == key then [(key, value)] + fields[1..]
    else
      var rest := Put(fields[1..], key, value);
      assert Keys([fields[0]] + rest) == [fields[0].0] + Keys(rest) by {
        assert ([fields[0]] + rest)[1..] == rest;
      }
      [fields[0]] + rest
  }

  /** After `d[key] = value`, `d[key]` is `value` and every other key reads
      as before. */
  lemma {:induction false} PutGet(fields: seq<(string, Json)>, key: string, value: Json, k: string)
    ensures Get(Put(fields, key, value), k) == if k == key then Some(value) else Get(fields, k)
  {
    if fields != [] && fields[0].0 != key {
      var rest := Put(fields[1..], key, value);
      assert ([fields[0]] + rest)[1..] == rest;
      PutGet(fields[1..], key, value, k);
    } else if fields != [] {
      assert ([(key, value)] + fields[1..])[1..] == fields[1..];
    }
  }

  /** Setting a key that is not there yet appends it. */
  lemma {:induction false} PutNew(fields: seq<(string, Json)>, key: string, value: Json)
    requires key !in Keys(fields)
    ensures Put(fields, key, value) == fields + [(key, value)]
  {
    if fields != [] {
      assert Keys(fields) == [fields[0].0] + Keys(fields[1..]);
      PutNew(fields[1..], key, value);
      assert [fields[0]] + (fields[1..] + [(key, value)]) == fields + [(key, value)];
    }
  }

  /** Reading a two-key dictionary literal. */
  lemma Lookup2(k0: string, v0: Json, k1: string, v1: Json)
    requires k0 != k1
    ensures Keys([(k0, v0), (k1, v1)]) == [k0, k1]
    ensures Get([(k0, v0), (k1, v1)], k0) == Some(v0)
    ensures Get([(k0, v0), (k1, v1)], k1) == Some(v1)
  {
    assert [(k0, v0), (k1, v1)][1..] == [(k1, v1)];
  }

  /** Reading a three-key dictionary literal. */
  lemma Lookup3(k0: string, v0: Json, k1: string, v1: Json, k2: string, v2: Json)
    requires k0 != k1 && k0 != k2 && k1 != k2
    ensures Keys([(k0, v0), (k1, v1), (k2, v2)]) == [k0, k1, k2]
    ensures Get([(k0, v0), (k1, v1), (k2, v2)], k0) == Some(v0)
    ensures Get([(k0, v0), (k1, v1), (k2, v2)], k1) == Some(v1)
    ensures Get([(k0, v0), (k1, v1), (k2, v2)], k2) == Some(v2)
  {
    assert [(k0, v0), (k1, v1), (k2, v2)][1..] == [(k1, v1), (k2, v2)];
    Lookup2(k1, v1, k2, v2);
  }
}
