/** The generic JSON values (`serde_json::Value`) the inventory reader walks. */
module Json {
  import opened Results

  /** An object keeps its members in text order; numbers, booleans and null are
      all `Other`, since the engine never looks inside them. */
  datatype Json =
    | Object(members: seq<(string, Json)>)
    | Array(elems: seq<Json>)
    | String(text: string)
    | Other

  /** `Map::get`. serde_json builds its map by inserting the members in order,
      so when a key repeats the LAST binding is the one that is found. */
  function Get(members: seq<(string, Json)>, key: string): Option<Json> {
    if members == [] then None
    else if members[|members| - 1].0 == key then Some(members[|members| - 1].1)
    else Get(members[..|members| - 1], key)
  }

  /** Lookup finds nothing exactly when no member has the key, and otherwise
      the value of the last member that has it. */
  lemma {:induction false} GetSpec(members: seq<(string, Json)>, key: string) returns (i: nat)
    ensures Get(members, key).None? <==> forall k :: 0 <= k < |members| ==> members[k].0 != key
    ensures Get(members, key).Some? ==>
              && i < |members| && members[i] == (key, Get(members, key).value)
              && forall j :: i < j < |members| ==> members[j].0 != key
  {
    if members == [] {
      i := 0;
    } else if members[|members| - 1].0 == key {
      i := |members| - 1;
    } else {
      var init := members[..|members| - 1];
      i := GetSpec(init, key);
      assert forall k :: 0 <= k < |init| ==> init[k] == members[k];
    }
  }

  /** `Value::as_object` */
  function AsObject(v: Json): Option<seq<(string, Json)>> {
    if v.Object? then Some(v.members) else None
  }

  /** `Value::as_array` */
  function AsArray(v: Json): Option<seq<Json>> {
    if v.Array? then Some(v.elems) else None
  }

  /** `Value::as_str` */
  function AsStr(v: Json): Option<string> {
    if v.String? then Some(v.text) else None
  }

  /** `o.get(key).and_then(Value::as_object)` */
  function ObjectField(o: seq<(string, Json)>, key: string): Option<seq<(string, Json)>> {
    var v :- Get(o, key);
    AsObject(v)
  }

  /** `o.get(key).and_then(Value::as_str)` */
  function StrField(o: seq<(string, Json)>, key: string): Option<string> {
    var v :- Get(o, key);
    AsStr(v)
  }

  /** The value reached from `v` by looking up `keys` in nested objects, one key per level. */
  ghost function At(v: Json, keys: seq<string>): Option<Json>
    decreases |keys|
  {
    if keys == [] then Some(v)
    else if !v.Object? then None
    else match Get(v.members, keys[0])
      case None => None
      case Some(child) => At(child, keys[1..])
  }
}
