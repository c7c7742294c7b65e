/** The JSON values that `JSON.parse` produces. An object is the list of its
    properties in enumeration order. */
module Json {
  import opened Model

  datatype Json =
    | JNull
    | JBool(b: bool)
    | JNumber(n: real)
    | JString(s: string)
    | JArray(items: seq<Json>)
    | JObject(fields: seq<(string, Json)>)

  /** Property lookup `o[key]`: `None` stands for `undefined`. */
  function Get(fields: seq<(string, Json)>, key: string): Option<Json> {
    if fields == [] then None
    else if fields[0].0 == key then Some(fields[0].1)
    else Get(fields[1..], key)
  }

  /** Every property name is one of `allowed`. */
  predicate KeysWithin(fields: seq<(string, Json)>, allowed: set<string>) {
    forall i :: 0 <= i < |fields| ==> fields[i].0 in allowed
  }

  /** The lookup finds the first property of that name, and nothing when
      there is none. */
  lemma {:induction false} GetFinds(fields: seq<(string, Json)>, key: string)
    ensures Get(fields, key).None? <==> forall i :: 0 <= i < |fields| ==> fields[i].0 != key
    ensures Get(fields, key).Some? ==>
      exists i :: 0 <= i < |fields| && fields[i] == (key, Get(fields, key).value) && forall j :: 0 <= j < i ==> fields[j].0 != key
    decreases |fields|
  {
    if fields != [] && fields[0].0 != key {
      GetFinds(fields[1..], key);
      if Get(fields, key).Some? {
        var i :| 0 <= i < |fields[1..]| && fields[1..][i] == (key, Get(fields, key).value)
          && forall j :: 0 <= j < i ==> fields[1..][j].0 != key;
        assert fields[i + 1] == (key, Get(fields, key).value);
        assert forall j :: 0 <= j < i + 1 ==> fields[j].0 != key by {
          forall j | 0 <= j < i + 1 ensures fields[j].0 != key {
            if j > 0 { assert fields[j] == fields[1..][j - 1]; }
          }
        }
      } else {
        forall i | 0 <= i < |fields| ensures fields[i].0 != key {
          if i > 0 { assert fields[i] == fields[1..][i - 1]; }
        }
      }
    }
  }
}
