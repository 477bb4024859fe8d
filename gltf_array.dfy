// GltfArray_Parse (Utils/GltfLoader.cpp:399-407): size the output to the JSON array, parse
// the entries in order into it, and stop at the first entry that fails.

module GltfArrays {

  import opened GltfJson

  /** What a Gltf_Parse overload leaves behind: whether it succeeded, and the output object as it
      stands afterwards (filled from its default as far as the parse got). */
  datatype Parsed<T> = Parsed(ok: bool, value: T)

  /** The index of the first entry from `i` on that fails to parse, or the length. */
  function FirstFailure<T>(items: seq<Json>, parse: Json -> Parsed<T>, i: nat): (f: nat)
    requires i <= |items|
    ensures i <= f <= |items|
    ensures forall k :: i <= k < f ==> parse(items[k]).ok
    ensures f < |items| ==> !parse(items[f]).ok
    decreases |items| - i
  {
    if i == |items| then i
    else if !parse(items[i]).ok then i
    else FirstFailure(items, parse, i + 1)
  }

  /** The array after the parse: entries up to and including the first failure are parsed, the
      rest keep the default the resize gave them. */
  function ParseArray<T>(items: seq<Json>, parse: Json -> Parsed<T>, dflt: T): Parsed<seq<T>> {
    var f := FirstFailure(items, parse, 0);
    Parsed(f == |items|, seq(|items|, k requires 0 <= k < |items| => if k <= f then parse(items[k]).value else dflt))
  }

  /** The array succeeds exactly when every entry does; it always has one element per entry;
      and every entry is its own parse unless it comes after the first failure. */
  lemma ParseArrayMeaning<T>(items: seq<Json>, parse: Json -> Parsed<T>, dflt: T)
    ensures ParseArray(items, parse, dflt).ok <==> forall k :: 0 <= k < |items| ==> parse(items[k]).ok
    ensures |ParseArray(items, parse, dflt).value| == |items|
    ensures ParseArray(items, parse, dflt).ok ==>
      forall k :: 0 <= k < |items| ==> ParseArray(items, parse, dflt).value[k] == parse(items[k]).value
    ensures !ParseArray(items, parse, dflt).ok ==>
      exists f :: 0 <= f < |items| && !parse(items[f]).ok &&
        (forall k :: 0 <= k < f ==> parse(items[k]).ok) &&
        (forall k :: 0 <= k <= f ==> ParseArray(items, parse, dflt).value[k] == parse(items[k]).value) &&
        (forall k :: f < k < |items| ==> ParseArray(items, parse, dflt).value[k] == dflt)
  {
    var f := FirstFailure(items, parse, 0);
    if !ParseArray(items, parse, dflt).ok {
      assert 0 <= f < |items| && !parse(items[f]).ok;
    }
  }

  /** The parse loop over a freshly resized array. */
  method GltfArrayParse<T>(json: Json, parse: Json -> Parsed<T>, dflt: T) returns (ok: bool, arr: seq<T>)
    ensures Parsed(ok, arr) == ParseArray(Items(json), parse, dflt)
  {
    var items := Items(json);
    var a := new T[|items|](_ => dflt);
    ghost var f := FirstFailure(items, parse, 0);
    var i := 0;
    while i < |items|
      invariant 0 <= i <= f
      invariant forall k :: 0 <= k < i ==> a[k] == parse(items[k]).value
      invariant forall k :: i <= k < |items| ==> a[k] == dflt
    {
      var r := parse(items[i]);
      a[i] := r.value;
      if !r.ok {
        assert i == f;
        assert a[..] == ParseArray(items, parse, dflt).value;
        ok, arr := false, a[..];
        return;
      }
      i := i + 1;
    }
    assert a[..] == ParseArray(items, parse, dflt).value;
    ok, arr := true, a[..];
  }
}
