// What the Gltf_Parse overloads promise (Utils/GltfLoader.cpp:96-452): which members are
// required, which defaults fill absent ones, and when the whole document succeeds.

module GltfProperties {

  import opened GltfJson
  import opened GltfArrays
  import opened GltfParse
  import opened GltfDocument

  /** Every entry of the array stored under `key` parses, if there is one. */
  predicate EveryEntry<T>(j: Json, key: string, parse: Json -> Parsed<T>) {
    HasMember(j, key) ==> forall k :: 0 <= k < |Items(Get(j, key))| ==> parse(Items(Get(j, key))[k]).ok
  }

  /** An optional array succeeds exactly when every entry parses, and it has one element per
      entry (none when the member is absent). */
  lemma OptionalArrayMeaning<T>(j: Json, key: string, parse: Json -> Parsed<T>, dflt: T)
    ensures OptionalArray(j, key, parse, dflt).ok <==> EveryEntry(j, key, parse)
    ensures |OptionalArray(j, key, parse, dflt).value| == if HasMember(j, key) then |Items(Get(j, key))| else 0
    ensures OptionalArray(j, key, parse, dflt).ok ==>
      forall k :: 0 <= k < |OptionalArray(j, key, parse, dflt).value| ==>
        OptionalArray(j, key, parse, dflt).value[k] == parse(Items(Get(j, key))[k]).value
  {
    if HasMember(j, key) {
      ParseArrayMeaning(Items(Get(j, key)), parse, dflt);
    }
  }

  /** The document succeeds exactly when it has an asset and every entry of every array it has
      parses; whether the asset itself parses plays no part. */
  lemma GltfSucceeds(j: Json)
    ensures GltfOf(j).ok <==>
      HasMember(j, "asset") &&
      EveryEntry(j, "accessors", AccessorOf) && EveryEntry(j, "buffers", BufferOf) &&
      EveryEntry(j, "bufferViews", BufferViewOf) && EveryEntry(j, "images", ImageOf) &&
      EveryEntry(j, "materials", MaterialOf) && EveryEntry(j, "meshes", MeshOf) &&
      EveryEntry(j, "nodes", NodeOf) && EveryEntry(j, "samplers", SamplerOf) &&
      EveryEntry(j, "scenes", SceneOf) && EveryEntry(j, "textures", TextureOf)
  {
    OptionalArrayMeaning(j, "accessors", AccessorOf, DEFAULT_ACCESSOR);
    OptionalArrayMeaning(j, "buffers", BufferOf, DEFAULT_BUFFER);
    OptionalArrayMeaning(j, "bufferViews", BufferViewOf, DEFAULT_BUFFER_VIEW);
    OptionalArrayMeaning(j, "images", ImageOf, DEFAULT_IMAGE);
    OptionalArrayMeaning(j, "materials", MaterialOf, DEFAULT_MATERIAL);
    OptionalArrayMeaning(j, "meshes", MeshOf, DEFAULT_MESH);
    OptionalArrayMeaning(j, "nodes", NodeOf, DEFAULT_NODE);
    OptionalArrayMeaning(j, "samplers", SamplerOf, DEFAULT_SAMPLER);
    OptionalArrayMeaning(j, "scenes", SceneOf, DEFAULT_SCENE);
    OptionalArrayMeaning(j, "textures", TextureOf, DEFAULT_TEXTURE);
  }

  /** Nodes, materials, samplers, scenes, textures and images always parse, so only accessors,
      buffers, buffer views and meshes can make a document with an asset fail. */
  lemma GltfFailsOnlyOnRequired(j: Json)
    requires HasMember(j, "asset")
    ensures GltfOf(j).ok <==>
      EveryEntry(j, "accessors", AccessorOf) && EveryEntry(j, "buffers", BufferOf) &&
      EveryEntry(j, "bufferViews", BufferViewOf) && EveryEntry(j, "meshes", MeshOf)
  {
    GltfSucceeds(j);
  }

  /** A document with as many entries in each array as it lists: the arrays of the output have
      one element per entry of the JSON arrays. */
  lemma GltfArraySizes(j: Json)
    requires HasMember(j, "asset")
    ensures |GltfOf(j).value.accessors| == (if HasMember(j, "accessors") then |Items(Get(j, "accessors"))| else 0)
    ensures |GltfOf(j).value.meshes| == (if HasMember(j, "meshes") then |Items(Get(j, "meshes"))| else 0)
    ensures |GltfOf(j).value.nodes| == (if HasMember(j, "nodes") then |Items(Get(j, "nodes"))| else 0)
    ensures |GltfOf(j).value.buffers| == (if HasMember(j, "buffers") then |Items(Get(j, "buffers"))| else 0)
  {
    OptionalArrayMeaning(j, "accessors", AccessorOf, DEFAULT_ACCESSOR);
    OptionalArrayMeaning(j, "meshes", MeshOf, DEFAULT_MESH);
    OptionalArrayMeaning(j, "nodes", NodeOf, DEFAULT_NODE);
    OptionalArrayMeaning(j, "buffers", BufferOf, DEFAULT_BUFFER);
  }

  /** A document without an asset fails and leaves the output as reset. */
  lemma GltfNeedsAsset(j: Json)
    requires !HasMember(j, "asset")
    ensures GltfOf(j) == Parsed(false, DEFAULT_GLTF)
  {
  }

  /** Each required member: the parse fails without it, and a failed parse leaves the default. */
  lemma RequiredMembers(j: Json)
    ensures AssetOf(j).ok <==> HasMember(j, "version")
    ensures PrimitiveOf(j).ok <==> HasMember(j, "attributes")
    ensures TextureInfoOf(j).ok <==> HasMember(j, "index")
    ensures AccessorOf(j).ok <==> HasMember(j, "componentType") && HasMember(j, "count") && HasMember(j, "type")
    ensures BufferViewOf(j).ok <==> HasMember(j, "buffer") && HasMember(j, "byteLength")
    ensures BufferOf(j).ok <==> HasMember(j, "byteLength")
    ensures !AccessorOf(j).ok ==> AccessorOf(j).value == DEFAULT_ACCESSOR
    ensures !BufferViewOf(j).ok ==> BufferViewOf(j).value == DEFAULT_BUFFER_VIEW
  {
  }

  /** A mesh parses exactly when it has primitives and each of them has attributes; a mesh whose
      primitives fail keeps no name. */
  lemma MeshSucceeds(j: Json)
    ensures MeshOf(j).ok <==>
      HasMember(j, "primitives") &&
      forall k :: 0 <= k < |Items(Get(j, "primitives"))| ==> HasMember(Items(Get(j, "primitives"))[k], "attributes")
    ensures !MeshOf(j).ok ==> MeshOf(j).value.name == ""
    ensures HasMember(j, "primitives") ==> |MeshOf(j).value.primitives| == |Items(Get(j, "primitives"))|
  {
    if HasMember(j, "primitives") {
      var items := Items(Get(j, "primitives"));
      ParseArrayMeaning(items, PrimitiveOf, DEFAULT_PRIMITIVE);
      assert forall k :: 0 <= k < |items| ==> (PrimitiveOf(items[k]).ok <==> HasMember(items[k], "attributes"));
    }
  }

  /** The defaults of absent optional members. */
  lemma NodeDefaults(j: Json)
    ensures !HasMember(j, "mesh") ==> NodeOf(j).value.mesh == -1
    ensures !HasMember(j, "scale") ==> NodeOf(j).value.scale == Vec3(1.0, 1.0, 1.0)
    ensures !HasMember(j, "rotation") ==> NodeOf(j).value.rotation == Vec4(0.0, 0.0, 0.0, 1.0)
    ensures !HasMember(j, "children") ==> NodeOf(j).value.children == []
    ensures HasMember(j, "children") ==> |NodeOf(j).value.children| == |Items(Get(j, "children"))|
  {
  }

  lemma PrimitiveDefaults(j: Json)
    requires HasMember(j, "attributes")
    ensures !HasMember(j, "indices") ==> PrimitiveOf(j).value.indices == -1
    ensures !HasMember(j, "material") ==> PrimitiveOf(j).value.material == -1
    ensures !HasMember(j, "mode") ==> PrimitiveOf(j).value.mode == MODE_TRIANGLES
    ensures |PrimitiveOf(j).value.attributes| == |MembersOf(Get(j, "attributes"))|
  {
  }

  lemma SamplerDefaults(j: Json)
    ensures !HasMember(j, "wrapS") ==> SamplerOf(j).value.wrapS == WRAP_REPEAT
    ensures !HasMember(j, "wrapT") ==> SamplerOf(j).value.wrapT == WRAP_REPEAT
    ensures !HasMember(j, "magFilter") ==> SamplerOf(j).value.magFilter == -1
    ensures !HasMember(j, "minFilter") ==> SamplerOf(j).value.minFilter == -1
  {
  }

  lemma AccessorDefaults(j: Json)
    requires AccessorOf(j).ok
    ensures !HasMember(j, "byteOffset") ==> AccessorOf(j).value.byteOffset == 0
    ensures !HasMember(j, "normalized") ==> !AccessorOf(j).value.normalized
    ensures !HasMember(j, "bufferView") ==> AccessorOf(j).value.bufferView == -1
  {
  }

  lemma BufferViewDefaults(j: Json)
    requires BufferViewOf(j).ok
    ensures !HasMember(j, "byteStride") ==> BufferViewOf(j).value.byteStride == -1
    ensures !HasMember(j, "target") ==> BufferViewOf(j).value.target == -1
    ensures !HasMember(j, "byteOffset") ==> BufferViewOf(j).value.byteOffset == 0
  {
  }

  /** An accessor's `type` selects the element type it names, and any other string leaves the
      default in place. */
  lemma AccessorType(j: Json, t: ElementType)
    requires AccessorOf(j).ok
    ensures !t.OtherType? && AsString(Get(j, "type")) == TypeName(t) ==> AccessorOf(j).value.elementType == t
    ensures AsString(Get(j, "type")) !in {"SCALAR", "VEC2", "VEC3", "VEC4", "MAT2", "MAT3", "MAT4"} ==>
      AccessorOf(j).value.elementType == DEFAULT_ACCESSOR.elementType
  {
    TypeNameRoundTrip(t, DEFAULT_ACCESSOR.elementType);
  }

  /** A texture counts as present exactly when the member exists and its index does. */
  lemma TexturePresence(j: Json)
    ensures MaterialOf(j).value.hasNormalTexture <==>
      HasMember(j, "normalTexture") && HasMember(Get(j, "normalTexture"), "index")
    ensures PbrOf(j).hasBaseColorTexture <==>
      HasMember(j, "baseColorTexture") && HasMember(Get(j, "baseColorTexture"), "index")
    ensures !HasMember(j, "pbrMetallicRoughness") ==> MaterialOf(j).value.pbr == PbrDefault()
  {
  }
}
