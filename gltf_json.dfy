// The JSON document the glTF loader walks, and the reads it makes of it
// (Utils/GltfLoader.cpp:53-129).  The text is parsed by a JSON library outside this model;
// here a document is already a value.

module GltfJson {

  import opened Wrappers

  /** A parsed JSON value.  An object keeps its members in document order, duplicates included. */
  datatype Json =
    | JNull
    | JBool(b: bool)
    | JNumber(n: real)
    | JString(s: string)
    | JArray(items: seq<Json>)
    | JObject(members: seq<(string, Json)>)

  /** The first member named `key`, as a member lookup finds it. */
  function Lookup(members: seq<(string, Json)>, key: string): (r: Option<Json>)
    ensures r.Some? <==> exists k :: 0 <= k < |members| && members[k].0 == key
    ensures r.Some? ==> exists k :: 0 <= k < |members| && members[k] == (key, r.value) &&
                                    forall m :: 0 <= m < k ==> members[m].0 != key
  {
    if |members| == 0 then None
    else if members[0].0 == key then Some(members[0].1)
    else
      var r := Lookup(members[1..], key);
      if r.Some? then
        ghost var k :| 0 <= k < |members[1..]| && members[1..][k] == (key, r.value) &&
                       forall m :: 0 <= m < k ==> members[1..][m].0 != key;
        assert members[k + 1] == (key, r.value);
        r
      else r
  }

  predicate HasMember(j: Json, key: string) {
    j.JObject? && Lookup(j.members, key).Some?
  }

  function Get(j: Json, key: string): Json
    requires HasMember(j, key)
  {
    Lookup(j.members, key).value
  }

  // Typed reads.  The JSON library asserts when a value has another type than the one asked
  // for; the model reads the type's zero value instead.

  function AsInt(j: Json): int {
    if j.JNumber? then j.n.Floor else 0
  }

  function AsUint(j: Json): nat {
    if j.JNumber? && j.n >= 0.0 then j.n.Floor else 0
  }

  function AsReal(j: Json): real {
    if j.JNumber? then j.n else 0.0
  }

  function AsString(j: Json): string {
    if j.JString? then j.s else ""
  }

  function AsBool(j: Json): bool {
    j.JBool? && j.b
  }

  function Items(j: Json): seq<Json> {
    if j.JArray? then j.items else []
  }

  /** Entry `i` of an array, or null past its end. */
  function Item(j: Json, i: nat): Json {
    if i < |Items(j)| then Items(j)[i] else JNull
  }

  /** Gltf_JsonGet: the member converted, or the default when the member is absent. */
  function JsonGet<T>(j: Json, key: string, conv: Json -> T, dflt: T): T {
    if HasMember(j, key) then conv(Get(j, key)) else dflt
  }
}
