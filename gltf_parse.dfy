// The glTF records and the Gltf_Parse overloads that fill them (Utils/GltfLoader.cpp:53-397).
// Each overload is a function from the JSON object to the record as the parse leaves it,
// starting from the record's default, together with whether the parse succeeded.  The loops
// inside the overloads are methods proved against those functions.
//
// The records are declared in Utils/GltfLoader.h, which is not part of this model: fields not
// set by a parse keep a zero, empty or false default here, and enumeration values follow
// section 5 of the glTF 2.0 specification.

module GltfParse {

  import opened GltfJson
  import opened GltfArrays

  datatype Vec3 = Vec3(x: real, y: real, z: real)
  datatype Vec4 = Vec4(x: real, y: real, z: real, w: real)
  /** A 4x4 matrix in column-major order, 16 entries. */
  datatype Matrix = Matrix(m: seq<real>)

  datatype Asset = Asset(version: string, copyright: string, generator: string, minVersion: string)
  datatype Scene = Scene(name: string, nodes: seq<nat>)
  datatype Node = Node(name: string, mesh: int, translation: Vec3, scale: Vec3, rotation: Vec4, matrix: Matrix,
                       children: seq<nat>)
  datatype MeshAttribute = MeshAttribute(semantic: string, index: int)
  datatype MeshPrimitive = MeshPrimitive(attributes: seq<MeshAttribute>, indices: int, material: int, mode: int)
  datatype Mesh = Mesh(primitives: seq<MeshPrimitive>, name: string)
  /** GltfTextureInfo and GltfNormalTextureInfo: the loader reads the same two members of both. */
  datatype TextureInfo = TextureInfo(index: int, texcoord: int)
  datatype PbrMetallicRoughness = PbrMetallicRoughness(baseColorFactor: Vec4, hasBaseColorTexture: bool,
                                                       baseColorTexture: TextureInfo)
  datatype Material = Material(name: string, pbr: PbrMetallicRoughness, hasNormalTexture: bool,
                               normalTexture: TextureInfo)
  datatype Texture = Texture(name: string, sampler: int, source: int)
  datatype Sampler = Sampler(name: string, magFilter: int, minFilter: int, wrapS: int, wrapT: int)
  datatype Image = Image(name: string, uri: string, mimeType: string, bufferView: int)
  /** An accessor's element type; `OtherType` is a value outside the enumeration. */
  datatype ElementType = SCALAR | VEC2 | VEC3 | VEC4 | MAT2 | MAT3 | MAT4 | OtherType(code: int)
  datatype Accessor = Accessor(componentType: int, count: int, elementType: ElementType, name: string,
                               bufferView: int, byteOffset: int, normalized: bool, max: seq<real>, min: seq<real>)
  datatype BufferView = BufferView(buffer: int, byteLength: int, name: string, byteOffset: int, byteStride: int,
                                   target: int)
  datatype Buffer = Buffer(byteLength: int, name: string, uri: string)

  // Defaults of the records, as value-initialised.
  const ZERO3 := Vec3(0.0, 0.0, 0.0)
  const ZERO_MATRIX := Matrix(seq(16, _ => 0.0))
  const DEFAULT_ASSET := Asset("", "", "", "")
  const DEFAULT_SCENE := Scene("", [])
  const DEFAULT_NODE := Node("", 0, ZERO3, ZERO3, Vec4(0.0, 0.0, 0.0, 0.0), ZERO_MATRIX, [])
  const DEFAULT_PRIMITIVE := MeshPrimitive([], 0, 0, 0)
  const DEFAULT_MESH := Mesh([], "")
  const DEFAULT_TEXTURE_INFO := TextureInfo(0, 0)
  const DEFAULT_MATERIAL := Material("", PbrDefault(), false, DEFAULT_TEXTURE_INFO)
  const DEFAULT_TEXTURE := Texture("", 0, 0)
  const DEFAULT_SAMPLER := Sampler("", 0, 0, 0, 0)
  const DEFAULT_IMAGE := Image("", "", "", 0)
  const DEFAULT_ACCESSOR := Accessor(0, 0, OtherType(0), "", 0, 0, false, [], [])
  const DEFAULT_BUFFER_VIEW := BufferView(0, 0, "", 0, 0, 0)
  const DEFAULT_BUFFER := Buffer(0, "", "")

  // Values the glTF 2.0 specification fixes (section 5.24 and 5.26).
  const MODE_TRIANGLES: int := 4
  const WRAP_REPEAT: int := 10497

  function StringOr(j: Json, key: string, dflt: string): string {
    JsonGet(j, key, AsString, dflt)
  }

  function IntOr(j: Json, key: string, dflt: int): int {
    JsonGet(j, key, AsInt, dflt)
  }

  // ---------------------------------------------------------------------------
  // Vectors, matrices and lists of numbers

  function Vec3Of(j: Json): Vec3 {
    Vec3(AsReal(Item(j, 0)), AsReal(Item(j, 1)), AsReal(Item(j, 2)))
  }

  function Vec4Of(j: Json): Vec4 {
    Vec4(AsReal(Item(j, 0)), AsReal(Item(j, 1)), AsReal(Item(j, 2)), AsReal(Item(j, 3)))
  }

  /** The matrix read from the first 16 entries of an array. */
  function MatrixOf(j: Json): (m: Matrix)
    ensures |m.m| == 16 && forall i :: 0 <= i < 16 ==> m.m[i] == AsReal(Item(j, i))
  {
    Matrix(seq(16, i requires 0 <= i < 16 => AsReal(Item(j, i))))
  }

  /** Gltf_ParseType<GltfMatrix>: the 16-entry loop. */
  method MatrixParse(j: Json) returns (m: Matrix)
    ensures m == MatrixOf(j)
  {
    var a := new real[16](_ => 0.0);
    for i := 0 to 16
      invariant forall k :: 0 <= k < i ==> a[k] == AsReal(Item(j, k))
    {
      a[i] := AsReal(Item(j, i));
    }
    m := Matrix(a[..]);
  }

  /** Indices pushed one per array entry (scene nodes, node children). */
  function UintsOf(j: Json): (r: seq<nat>)
    ensures |r| == |Items(j)| && forall i :: 0 <= i < |r| ==> r[i] == AsUint(Items(j)[i])
  {
    seq(|Items(j)|, i requires 0 <= i < |Items(j)| => AsUint(Items(j)[i]))
  }

  /** The push_back loop over an array of indices, into an empty list. */
  method UintListParse(j: Json) returns (r: seq<nat>)
    ensures r == UintsOf(j)
  {
    var items := Items(j);
    r := [];
    for i := 0 to |items|
      invariant r == UintsOf(j)[..i]
    {
      r := r + [AsUint(items[i])];
    }
  }

  /** An accessor's `max` or `min`: one number per array entry. */
  function NumbersOf(j: Json): (r: seq<real>)
    ensures |r| == |Items(j)| && forall i :: 0 <= i < |r| ==> r[i] == AsReal(Items(j)[i])
  {
    seq(|Items(j)|, i requires 0 <= i < |Items(j)| => AsReal(Items(j)[i]))
  }

  /** The loop copying `max` or `min` entry by entry. */
  method NumberListParse(j: Json) returns (r: seq<real>)
    ensures r == NumbersOf(j)
  {
    var items := Items(j);
    var a := new real[|items|](_ => 0.0);
    for i := 0 to |items|
      invariant forall k :: 0 <= k < i ==> a[k] == AsReal(items[k])
    {
      a[i] := AsReal(items[i]);
    }
    r := a[..];
  }

  // ---------------------------------------------------------------------------
  // The overloads

  /** Gltf_Parse(GltfAsset): `version` is required. */
  function AssetOf(j: Json): Parsed<Asset> {
    if !HasMember(j, "version") then Parsed(false, DEFAULT_ASSET)
    else Parsed(true, Asset(AsString(Get(j, "version")), StringOr(j, "copyright", ""),
                            StringOr(j, "generator", ""), StringOr(j, "minVersion", "")))
  }

  /** Gltf_Parse(GltfScene). */
  function SceneOf(j: Json): Parsed<Scene> {
    Parsed(true, Scene(StringOr(j, "name", ""), if HasMember(j, "nodes") then UintsOf(Get(j, "nodes")) else []))
  }

  /** Gltf_Parse(GltfNode): mesh -1, unit scale and identity rotation when absent. */
  function NodeOf(j: Json): Parsed<Node> {
    Parsed(true, Node(StringOr(j, "name", ""),
                      IntOr(j, "mesh", -1),
                      JsonGet(j, "translation", Vec3Of, ZERO3),
                      JsonGet(j, "scale", Vec3Of, Vec3(1.0, 1.0, 1.0)),
                      JsonGet(j, "rotation", Vec4Of, Vec4(0.0, 0.0, 0.0, 1.0)),
                      JsonGet(j, "matrix", MatrixOf, ZERO_MATRIX),
                      if HasMember(j, "children") then UintsOf(Get(j, "children")) else []))
  }

  function MembersOf(j: Json): seq<(string, Json)> {
    if j.JObject? then j.members else []
  }

  /** GltfMeshAttributes_Parse: one attribute per member of the object, in document order. */
  function AttributesOf(j: Json): (r: seq<MeshAttribute>)
    ensures |r| == |MembersOf(j)|
    ensures forall i :: 0 <= i < |r| ==> r[i] == MeshAttribute(MembersOf(j)[i].0, AsInt(MembersOf(j)[i].1))
  {
    seq(|MembersOf(j)|, i requires 0 <= i < |MembersOf(j)| => MeshAttribute(MembersOf(j)[i].0, AsInt(MembersOf(j)[i].1)))
  }

  /** The attribute loop: push one default attribute per member, then set its fields. */
  method MeshAttributesParse(j: Json) returns (r: seq<MeshAttribute>)
    ensures r == AttributesOf(j)
  {
    var members := MembersOf(j);
    r := [];
    for i := 0 to |members|
      invariant r == AttributesOf(j)[..i]
    {
      r := r + [MeshAttribute("", 0)];
      r := r[|r| - 1 := r[|r| - 1].(semantic := members[i].0)];
      r := r[|r| - 1 := r[|r| - 1].(index := AsInt(members[i].1))];
    }
  }

  /** Gltf_Parse(GltfMeshPrimitive): `attributes` is required; indices and material -1 and mode
      TRIANGLES when absent. */
  function PrimitiveOf(j: Json): Parsed<MeshPrimitive> {
    if !HasMember(j, "attributes") then Parsed(false, DEFAULT_PRIMITIVE)
    else Parsed(true, MeshPrimitive(AttributesOf(Get(j, "attributes")), IntOr(j, "indices", -1),
                                    IntOr(j, "material", -1), IntOr(j, "mode", MODE_TRIANGLES)))
  }

  /** Gltf_Parse(GltfMesh): `primitives` is required and every primitive must parse; the name is
      set only after they have. */
  function MeshOf(j: Json): Parsed<Mesh> {
    if !HasMember(j, "primitives") then Parsed(false, DEFAULT_MESH)
    else
      var prims := ParseArray(Items(Get(j, "primitives")), PrimitiveOf, DEFAULT_PRIMITIVE);
      if !prims.ok then Parsed(false, DEFAULT_MESH.(primitives := prims.value))
      else Parsed(true, Mesh(prims.value, StringOr(j, "name", "")))
  }

  /** GltfTextureInfo_Parse and GltfNormalTextureInfo_Parse: `index` is required, texCoord -1 when
      absent. */
  function TextureInfoOf(j: Json): Parsed<TextureInfo> {
    if !HasMember(j, "index") then Parsed(false, DEFAULT_TEXTURE_INFO)
    else Parsed(true, TextureInfo(AsInt(Get(j, "index")), IntOr(j, "texCoord", -1)))
  }

  /** GltfPbrMetallicRoughness_Default. */
  function PbrDefault(): PbrMetallicRoughness {
    PbrMetallicRoughness(Vec4(1.0, 1.0, 1.0, 1.0), false, DEFAULT_TEXTURE_INFO)
  }

  /** GltfPbrMetallicRoughness_Parse: a base colour texture counts only when it parses. */
  function PbrOf(j: Json): PbrMetallicRoughness {
    var info := if HasMember(j, "baseColorTexture") then TextureInfoOf(Get(j, "baseColorTexture"))
                else Parsed(false, DEFAULT_TEXTURE_INFO);
    PbrMetallicRoughness(JsonGet(j, "baseColorFactor", Vec4Of, Vec4(1.0, 1.0, 1.0, 1.0)), info.ok, info.value)
  }

  /** Gltf_Parse(GltfMaterial): always succeeds; a normal texture counts only when it parses. */
  function MaterialOf(j: Json): Parsed<Material> {
    var normal := if HasMember(j, "normalTexture") then TextureInfoOf(Get(j, "normalTexture"))
                  else Parsed(false, DEFAULT_TEXTURE_INFO);
    Parsed(true, Material(StringOr(j, "name", ""),
                          if HasMember(j, "pbrMetallicRoughness") then PbrOf(Get(j, "pbrMetallicRoughness")) else PbrDefault(),
                          normal.ok, normal.value))
  }

  /** Gltf_Parse(GltfTexture): sampler and source -1 when absent. */
  function TextureOf(j: Json): Parsed<Texture> {
    Parsed(true, Texture(StringOr(j, "name", ""), IntOr(j, "sampler", -1), IntOr(j, "source", -1)))
  }

  /** Gltf_Parse(GltfSampler): filters -1 and wrapping REPEAT when absent. */
  function SamplerOf(j: Json): Parsed<Sampler> {
    Parsed(true, Sampler(StringOr(j, "name", ""), IntOr(j, "magFilter", -1), IntOr(j, "minFilter", -1),
                         IntOr(j, "wrapS", WRAP_REPEAT), IntOr(j, "wrapT", WRAP_REPEAT)))
  }

  /** Gltf_Parse(GltfImage): bufferView -1 when absent. */
  function ImageOf(j: Json): Parsed<Image> {
    Parsed(true, Image(StringOr(j, "name", ""), StringOr(j, "uri", ""), StringOr(j, "mimeType", ""),
                       IntOr(j, "bufferView", -1)))
  }

  /** The name an element type is written with. */
  function TypeName(t: ElementType): string {
    match t
    case SCALAR => "SCALAR"
    case VEC2 => "VEC2"
    case VEC3 => "VEC3"
    case VEC4 => "VEC4"
    case MAT2 => "MAT2"
    case MAT3 => "MAT3"
    case MAT4 => "MAT4"
    case OtherType(_) => ""
  }

  /** The type a name selects; any other name leaves `prior` in place. */
  function TypeNamed(name: string, prior: ElementType): ElementType {
    if name == "SCALAR" then SCALAR
    else if name == "VEC2" then VEC2
    else if name == "VEC3" then VEC3
    else if name == "VEC4" then VEC4
    else if name == "MAT2" then MAT2
    else if name == "MAT3" then MAT3
    else if name == "MAT4" then MAT4
    else prior
  }

  /** Gltf_Parse(GltfAccessor): componentType, count and type are required; bufferView -1,
      byteOffset 0 and normalized false when absent. */
  function AccessorOf(j: Json): Parsed<Accessor> {
    if !HasMember(j, "componentType") || !HasMember(j, "count") || !HasMember(j, "type") then
      Parsed(false, DEFAULT_ACCESSOR)
    else
      Parsed(true, Accessor(AsInt(Get(j, "componentType")), AsInt(Get(j, "count")),
                            TypeNamed(AsString(Get(j, "type")), DEFAULT_ACCESSOR.elementType),
                            StringOr(j, "name", ""), IntOr(j, "bufferView", -1), IntOr(j, "byteOffset", 0),
                            JsonGet(j, "normalized", AsBool, false),
                            if HasMember(j, "max") then NumbersOf(Get(j, "max")) else [],
                            if HasMember(j, "min") then NumbersOf(Get(j, "min")) else []))
  }

  /** Gltf_Parse(GltfBufferView): buffer and byteLength are required; byteOffset 0, byteStride and
      target -1 when absent. */
  function BufferViewOf(j: Json): Parsed<BufferView> {
    if !HasMember(j, "buffer") || !HasMember(j, "byteLength") then Parsed(false, DEFAULT_BUFFER_VIEW)
    else Parsed(true, BufferView(AsInt(Get(j, "buffer")), AsInt(Get(j, "byteLength")), StringOr(j, "name", ""),
                                 IntOr(j, "byteOffset", 0), IntOr(j, "byteStride", -1), IntOr(j, "target", -1)))
  }

  /** Gltf_Parse(GltfBuffer): byteLength is required. */
  function BufferOf(j: Json): Parsed<Buffer> {
    if !HasMember(j, "byteLength") then Parsed(false, DEFAULT_BUFFER)
    else Parsed(true, Buffer(AsInt(Get(j, "byteLength")), StringOr(j, "name", ""), StringOr(j, "uri", "")))
  }
}
