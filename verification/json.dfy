/** JSON values as the Python side holds them after `json.loads`: objects
    keep their members in insertion order. */
module Json {
  import opened Base

  datatype Json =
    | JNull
    | JBool(b: bool)
    | JNum(n: real)
    | JStr(s: string)
    | JArr(items: seq<Json>)
    | JObj(members: seq<(string, Json)>)

  /** Python truthiness: `None`, `False`, zero and empty containers are false. */
  predicate Truthy(j: Json)
  {
    match j
    case JNull => false
    case JBool(b) => b
    case JNum(n) => n != 0.0
    case JStr(s) => s != ""
    case JArr(a) => a != []
    case JObj(m) => m != []
  }

  predicate HasKey(members: seq<(string, Json)>, key: string)
  {
    exists i :: 0 <= i < |members| && members[i].0 == key
  }

  /** `d.get(key)` on an object: the value stored under `key`, if any. A
      Python dict holds each key once, so the first match is the only one. */
  function Lookup(members: seq<(string, Json)>, key: string): (r: Option<Json>)
    ensures r.Some? <==> HasKey(members, key)
    ensures r.Some? ==> exists i :: 0 <= i < |members| && members[i] == (key, r.value)
  {
    if |members| == 0 then None
    else if members[0].0 == key then Some(members[0].1)
    else
      var r := Lookup(members[1..], key);
      assert HasKey(members, key) ==> HasKey(members[1..], key) by {
        if HasKey(members, key) {
          var i :| 0 <= i < |members| && members[i].0 == key;
          assert members[1..][i - 1].0 == key;
        }
      }
      assert r.Some? ==> exists i :: 0 <= i < |members| && members[i] == (key, r.value) by {
        if r.Some? {
          var i :| 0 <= i < |members[1..]| && members[1..][i] == (key, r.value);
          assert members[i + 1] == (key, r.value);
        }
      }
      r
  }
}
