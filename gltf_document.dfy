// The top-level Gltf_Parse (Utils/GltfLoader.cpp:409-452) and the accessor size tables
// (Utils/GltfLoader.cpp:536-574).

module GltfDocument {

  import opened DdsBytes
  import opened GltfJson
  import opened GltfArrays
  import opened GltfParse

  /** A loaded glTF asset and the contents of its binary chunk. */
  datatype Gltf = Gltf(
    asset: Asset,
    extensionsUsed: seq<string>,
    extensionsRequired: seq<string>,
    accessors: seq<Accessor>,
    buffers: seq<Buffer>,
    bufferViews: seq<BufferView>,
    images: seq<Image>,
    materials: seq<Material>,
    meshes: seq<Mesh>,
    nodes: seq<Node>,
    samplers: seq<Sampler>,
    scenes: seq<Scene>,
    textures: seq<Texture>,
    data: seq<Byte>)

  const DEFAULT_GLTF := Gltf(DEFAULT_ASSET, [], [], [], [], [], [], [], [], [], [], [], [], [])

  // ---------------------------------------------------------------------------
  // Extension lists

  /** The strings of the array stored under `key`; empty when there is none. */
  function ExtensionsOf(j: Json, key: string): (r: seq<string>)
    ensures !HasMember(j, key) ==> r == []
    ensures HasMember(j, key) ==>
      (|r| == |Items(Get(j, key))| && forall i :: 0 <= i < |r| ==> r[i] == AsString(Items(Get(j, key))[i]))
  {
    if !HasMember(j, key) then []
    else seq(|Items(Get(j, key))|, i requires 0 <= i < |Items(Get(j, key))| => AsString(Items(Get(j, key))[i]))
  }

  /** The ParseExtensionArray loop: resize to the array, then copy each string. */
  method ExtensionArrayParse(j: Json, key: string) returns (r: seq<string>)
    ensures r == ExtensionsOf(j, key)
  {
    if !HasMember(j, key) {
      return [];
    }
    var items := Items(Get(j, key));
    var a := new string[|items|](_ => "");
    for i := 0 to |items|
      invariant forall k :: 0 <= k < i ==> a[k] == AsString(items[k])
    {
      a[i] := AsString(items[i]);
    }
    r := a[..];
  }

  /** The required extensions as the loader fills them: from the "extensionsUsed" key. */
  function ExtensionsRequiredAsWritten(j: Json): seq<string> {
    ExtensionsOf(j, "extensionsUsed")
  }

  /** The required extensions from the key the glTF 2.0 specification defines for them. */
  function ExtensionsRequired(j: Json): seq<string> {
    ExtensionsOf(j, "extensionsRequired")
  }

  /** A document that requires one extension and uses two: the loader reports both as required,
      and a document that requires an extension without listing it as used reports none. */
  lemma RequiredReadFromUsed()
    ensures var j := JObject([("extensionsUsed", JArray([JString("A"), JString("B")])),
                              ("extensionsRequired", JArray([JString("A")]))]);
      ExtensionsRequiredAsWritten(j) == ["A", "B"] && ExtensionsRequired(j) == ["A"]
    ensures var j := JObject([("extensionsRequired", JArray([JString("A")]))]);
      ExtensionsRequiredAsWritten(j) == [] && ExtensionsRequired(j) == ["A"]
  {
    var j := JObject([("extensionsUsed", JArray([JString("A"), JString("B")])),
                      ("extensionsRequired", JArray([JString("A")]))]);
    assert Get(j, "extensionsUsed") == JArray([JString("A"), JString("B")]);
    assert Get(j, "extensionsRequired") == JArray([JString("A")]);
    var j2 := JObject([("extensionsRequired", JArray([JString("A")]))]);
    assert !HasMember(j2, "extensionsUsed");
    assert Get(j2, "extensionsRequired") == JArray([JString("A")]);
  }

  /** The corrected list is exactly the document's "extensionsRequired" array. */
  lemma ExtensionsRequiredMeaning(j: Json)
    ensures HasMember(j, "extensionsRequired") ==>
      (|ExtensionsRequired(j)| == |Items(Get(j, "extensionsRequired"))| &&
       forall i :: 0 <= i < |ExtensionsRequired(j)| ==>
         ExtensionsRequired(j)[i] == AsString(Items(Get(j, "extensionsRequired"))[i]))
    ensures !HasMember(j, "extensionsRequired") ==> ExtensionsRequired(j) == []
  {
  }

  // ---------------------------------------------------------------------------
  // The document

  /** An array member parsed when present; an absent one is left empty and does not fail. */
  function OptionalArray<T>(j: Json, key: string, parse: Json -> Parsed<T>, dflt: T): Parsed<seq<T>> {
    if HasMember(j, key) then ParseArray(Items(Get(j, key)), parse, dflt) else Parsed(true, [])
  }

  /** Gltf_Parse(Gltf): `asset` is required, but whether the asset itself parses does not matter;
      every present array is parsed, and the document succeeds when all of them do. */
  function GltfOf(j: Json): Parsed<Gltf> {
    if !HasMember(j, "asset") then Parsed(false, DEFAULT_GLTF)
    else
      var accessors := OptionalArray(j, "accessors", AccessorOf, DEFAULT_ACCESSOR);
      var buffers := OptionalArray(j, "buffers", BufferOf, DEFAULT_BUFFER);
      var views := OptionalArray(j, "bufferViews", BufferViewOf, DEFAULT_BUFFER_VIEW);
      var images := OptionalArray(j, "images", ImageOf, DEFAULT_IMAGE);
      var materials := OptionalArray(j, "materials", MaterialOf, DEFAULT_MATERIAL);
      var meshes := OptionalArray(j, "meshes", MeshOf, DEFAULT_MESH);
      var nodes := OptionalArray(j, "nodes", NodeOf, DEFAULT_NODE);
      var samplers := OptionalArray(j, "samplers", SamplerOf, DEFAULT_SAMPLER);
      var scenes := OptionalArray(j, "scenes", SceneOf, DEFAULT_SCENE);
      var textures := OptionalArray(j, "textures", TextureOf, DEFAULT_TEXTURE);
      Parsed(accessors.ok && buffers.ok && views.ok && images.ok && materials.ok && meshes.ok && nodes.ok &&
             samplers.ok && scenes.ok && textures.ok,
             Gltf(AssetOf(Get(j, "asset")).value, ExtensionsOf(j, "extensionsUsed"), ExtensionsRequired(j),
                  accessors.value, buffers.value, views.value, images.value, materials.value, meshes.value,
                  nodes.value, samplers.value, scenes.value, textures.value, []))
  }

  /** One `succeeded &= GltfArray_Parse(...)` step. */
  method OptionalArrayParse<T>(j: Json, key: string, parse: Json -> Parsed<T>, dflt: T) returns (ok: bool, arr: seq<T>)
    ensures Parsed(ok, arr) == OptionalArray(j, key, parse, dflt)
  {
    ok, arr := true, [];
    if HasMember(j, key) {
      ok, arr := GltfArrayParse(Get(j, key), parse, dflt);
    }
  }

  /** Gltf_Parse(Gltf) as the loader runs it, field by field into a reset output. */
  method GltfParseDocument(j: Json) returns (succeeded: bool, g: Gltf)
    ensures Parsed(succeeded, g) == GltfOf(j)
  {
    g := DEFAULT_GLTF;
    if !HasMember(j, "asset") {
      return false, g;
    }
    g := g.(asset := AssetOf(Get(j, "asset")).value);
    var used := ExtensionArrayParse(j, "extensionsUsed");
    var required := ExtensionArrayParse(j, "extensionsRequired");
    g := g.(extensionsUsed := used, extensionsRequired := required);
    succeeded := true;
    var ok: bool;
    ok, g := OptionalFields1(j, g);
    succeeded := succeeded && ok;
    ok, g := OptionalFields2(j, g);
    succeeded := succeeded && ok;
  }

  /** Accessors, buffers, buffer views, images and materials. */
  method OptionalFields1(j: Json, g0: Gltf) returns (succeeded: bool, g: Gltf)
    ensures var a := OptionalArray(j, "accessors", AccessorOf, DEFAULT_ACCESSOR);
      var b := OptionalArray(j, "buffers", BufferOf, DEFAULT_BUFFER);
      var v := OptionalArray(j, "bufferViews", BufferViewOf, DEFAULT_BUFFER_VIEW);
      var i := OptionalArray(j, "images", ImageOf, DEFAULT_IMAGE);
      var m := OptionalArray(j, "materials", MaterialOf, DEFAULT_MATERIAL);
      succeeded == (a.ok && b.ok && v.ok && i.ok && m.ok) &&
      g == g0.(accessors := a.value, buffers := b.value, bufferViews := v.value, images := i.value,
               materials := m.value)
  {
    var ok, arr;
    g := g0;
    succeeded := true;
    ok, arr := OptionalArrayParse(j, "accessors", AccessorOf, DEFAULT_ACCESSOR);
    succeeded, g := succeeded && ok, g.(accessors := arr);
    var ok2, arr2 := OptionalArrayParse(j, "buffers", BufferOf, DEFAULT_BUFFER);
    succeeded, g := succeeded && ok2, g.(buffers := arr2);
    var ok3, arr3 := OptionalArrayParse(j, "bufferViews", BufferViewOf, DEFAULT_BUFFER_VIEW);
    succeeded, g := succeeded && ok3, g.(bufferViews := arr3);
    var ok4, arr4 := OptionalArrayParse(j, "images", ImageOf, DEFAULT_IMAGE);
    succeeded, g := succeeded && ok4, g.(images := arr4);
    var ok5, arr5 := OptionalArrayParse(j, "materials", MaterialOf, DEFAULT_MATERIAL);
    succeeded, g := succeeded && ok5, g.(materials := arr5);
  }

  /** Meshes, nodes, samplers, scenes and textures. */
  method OptionalFields2(j: Json, g0: Gltf) returns (succeeded: bool, g: Gltf)
    ensures var me := OptionalArray(j, "meshes", MeshOf, DEFAULT_MESH);
      var n := OptionalArray(j, "nodes", NodeOf, DEFAULT_NODE);
      var sa := OptionalArray(j, "samplers", SamplerOf, DEFAULT_SAMPLER);
      var sc := OptionalArray(j, "scenes", SceneOf, DEFAULT_SCENE);
      var t := OptionalArray(j, "textures", TextureOf, DEFAULT_TEXTURE);
      succeeded == (me.ok && n.ok && sa.ok && sc.ok && t.ok) &&
      g == g0.(meshes := me.value, nodes := n.value, samplers := sa.value, scenes := sc.value,
               textures := t.value)
  {
    g := g0;
    var ok1, arr1 := OptionalArrayParse(j, "meshes", MeshOf, DEFAULT_MESH);
    succeeded, g := ok1, g.(meshes := arr1);
    var ok2, arr2 := OptionalArrayParse(j, "nodes", NodeOf, DEFAULT_NODE);
    succeeded, g := succeeded && ok2, g.(nodes := arr2);
    var ok3, arr3 := OptionalArrayParse(j, "samplers", SamplerOf, DEFAULT_SAMPLER);
    succeeded, g := succeeded && ok3, g.(samplers := arr3);
    var ok4, arr4 := OptionalArrayParse(j, "scenes", SceneOf, DEFAULT_SCENE);
    succeeded, g := succeeded && ok4, g.(scenes := arr4);
    var ok5, arr5 := OptionalArrayParse(j, "textures", TextureOf, DEFAULT_TEXTURE);
    succeeded, g := succeeded && ok5, g.(textures := arr5);
  }

  // ---------------------------------------------------------------------------
  // Accessor size tables

  // Component types, section 3.6.2.2 of the glTF 2.0 specification.
  const BYTE: int := 5120
  const UNSIGNED_BYTE: int := 5121
  const SHORT: int := 5122
  const UNSIGNED_SHORT: int := 5123
  const UNSIGNED_INT: int := 5125
  const FLOAT: int := 5126

  /** GltfLoader_SizeOfComponent: bytes per component, 0 for an unknown type. */
  function SizeOfComponent(ct: int): nat {
    if ct == BYTE || ct == UNSIGNED_BYTE then 1
    else if ct == SHORT || ct == UNSIGNED_SHORT then 2
    else if ct == UNSIGNED_INT || ct == FLOAT then 4
    else 0
  }

  /** GltfLoader_ComponentCount: components per element, 0 outside the enumeration. */
  function ComponentCount(t: ElementType): nat {
    match t
    case SCALAR => 1
    case VEC2 => 2
    case VEC3 => 3
    case VEC4 => 4
    case MAT2 => 4
    case MAT3 => 9
    case MAT4 => 16
    case OtherType(_) => 0
  }

  /** The shape of an element, section 3.6.2.3 of the glTF 2.0 specification: rows and columns. */
  function Rows(t: ElementType): nat {
    match t
    case SCALAR => 1
    case VEC2 => 2
    case VEC3 => 3
    case VEC4 => 4
    case MAT2 => 2
    case MAT3 => 3
    case MAT4 => 4
    case OtherType(_) => 0
  }

  function Columns(t: ElementType): nat {
    if t.MAT2? || t.MAT3? || t.MAT4? then Rows(t) else if t.OtherType? then 0 else 1
  }

  /** The component count is the element's rows times its columns. */
  lemma ComponentCountIsShape(t: ElementType)
    ensures ComponentCount(t) == Rows(t) * Columns(t)
  {
  }

  /** A known component type has 1, 2 or 4 bytes, and the table knows exactly the six component
      types of the glTF 2.0 specification. */
  lemma SizeOfComponentKnown(ct: int)
    ensures SizeOfComponent(ct) in {0, 1, 2, 4}
    ensures SizeOfComponent(ct) != 0 <==> ct in {BYTE, UNSIGNED_BYTE, SHORT, UNSIGNED_SHORT, UNSIGNED_INT, FLOAT}
  {
  }

  /** Every element type written by name is read back as itself, with its component count, and a
      name that is none of them leaves the prior type and a count of 0 when that type is unset. */
  lemma TypeNameRoundTrip(t: ElementType, prior: ElementType)
    ensures !t.OtherType? ==> TypeNamed(TypeName(t), prior) == t && ComponentCount(t) > 0
    ensures t.OtherType? ==> TypeNamed(TypeName(t), prior) == prior
  {
  }
}
