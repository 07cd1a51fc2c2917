/** A JSON document as encoding/json decodes it into interface{} values. */
module Json {
  import opened Results

  /** No two members share a key. */
  predicate DistinctKeys<T>(ms: seq<(string, T)>) {
    forall i, j | 0 <= i < j < |ms| :: ms[i].0 != ms[j].0
  }

  /** The members of a decoded object: a Go map has one entry per key. */
  type Members<T> = ms: seq<(string, T)> | DistinctKeys(ms) witness []

  /** Numbers decode to float64 and are kept here as reals. An object decodes
      to a Go map; it is kept as its members, one per key, in one iteration
      order of that map (Go randomises the order, so every order is a
      possible run). */
  datatype Json =
    | JNull
    | JBool(b: bool)
    | JNumber(n: real)
    | JString(s: string)
    | JArray(items: seq<Json>)
    | JObject(members: Members<Json>)

  /** The comma-ok map read `v, ok := m[k]`: the value of the member named
      k. Object members never repeat a key, so that member is the only one;
      on any sequence of members it is the last. */
  function Lookup(ms: seq<(string, Json)>, k: string): (r: Option<Json>)
    ensures r.None? <==> forall i | 0 <= i < |ms| :: ms[i].0 != k
    ensures r.Some? ==> exists i | 0 <= i < |ms| :: ms[i] == (k, r.value)
    ensures r.Some? ==>
      exists i | 0 <= i < |ms| :: ms[i] == (k, r.value) && forall j | i < j < |ms| :: ms[j].0 != k
  {
    if |ms| == 0 then None
    else if ms[|ms| - 1].0 == k then Some(ms[|ms| - 1].1)
    else Lookup(ms[..|ms| - 1], k)
  }

  /** `m[k] != nil`: the key is there and its value is not JSON null. */
  predicate Present(ms: seq<(string, Json)>, k: string) {
    Lookup(ms, k).Some? && !Lookup(ms, k).value.JNull?
  }

  /** The key set of a decoded object. */
  function Keys(ms: seq<(string, Json)>): set<string> {
    set i | 0 <= i < |ms| :: ms[i].0
  }
}
