// GltfLoader_Load (Utils/GltfLoader.cpp:454-534): the GLB container of section 4 of the
// glTF 2.0 specification: a 12-byte header (magic, version, length), a JSON chunk, then a
// binary chunk, each chunk led by its length and type as little-endian 32-bit words.

module GltfGlb {

  import opened Wrappers
  import opened DdsBytes
  import opened GltfJson
  import opened GltfArrays
  import opened GltfDocument

  const GLTF_MAGIC: U32 := 0x4654_6C67       // "glTF"
  const GLTF_JSON_CHUNK: U32 := 0x4E4F_534A  // "JSON"
  const GLTF_BIN_CHUNK: U32 := 0x004E_4942   // "BIN\0"; the loader never compares against it
  const GLB_HEADER_SIZE: nat := 12
  const CHUNK_HEADER_SIZE: nat := 8
  /** Where the JSON text starts: after the file header and the JSON chunk's header. */
  const JSON_START: nat := GLB_HEADER_SIZE + CHUNK_HEADER_SIZE

  datatype GlbError =
    | EmptyFile | HeaderTooShort | BadMagic | BadVersion | NotJsonChunk | JsonParseFailed | GltfParseFailed
    | ChunkOutOfBounds

  /** What the loader reports, and what the output holds afterwards. */
  datatype LoadOutcome = LoadOutcome(error: Option<GlbError>, gltf: Gltf) {
    predicate Ok() { error.None? }
  }

  function Fail(e: GlbError, g: Gltf): LoadOutcome {
    LoadOutcome(Some(e), g)
  }

  /** The JSON parser, outside this model: the document a text holds, if it is well-formed. */
  type JsonParser = seq<Byte> -> Option<Json>

  /** The checks on the file header and the JSON chunk header, and the JSON text they locate.
      None marks a read past the end of the file, which the loader makes without checking. */
  function JsonChunkAsWritten(file: seq<Byte>): Option<Result<seq<Byte>, GlbError>> {
    if |file| == 0 then Some(Failure(EmptyFile))
    else if |file| < GLB_HEADER_SIZE then Some(Failure(HeaderTooShort))
    else if ReadU32(file, 0) != GLTF_MAGIC then Some(Failure(BadMagic))
    else if ReadU32(file, 4) != 2 then Some(Failure(BadVersion))
    else if |file| < JSON_START then None
    else if ReadU32(file, 16) != GLTF_JSON_CHUNK then Some(Failure(NotJsonChunk))
    else if JSON_START + ReadU32(file, 12) > |file| then None
    else Some(Success(file[JSON_START..JSON_START + ReadU32(file, 12)]))
  }

  /** The same checks with the missing bounds checks added. */
  function JsonChunk(file: seq<Byte>): (r: Result<seq<Byte>, GlbError>)
    ensures r.Success? ==>
      (|file| >= JSON_START && ReadU32(file, 0) == GLTF_MAGIC && ReadU32(file, 4) == 2 &&
       ReadU32(file, 16) == GLTF_JSON_CHUNK && |file| >= JSON_START + ReadU32(file, 12) &&
       r.value == file[JSON_START..JSON_START + ReadU32(file, 12)])
  {
    var w := JsonChunkAsWritten(file);
    if w.None? then Failure(ChunkOutOfBounds) else w.value
  }

  /** The binary chunk after a JSON text of `jsonLength` bytes: its length word, then its bytes;
      None when the file does not hold them.  Its type word is never looked at. */
  function BinChunk(file: seq<Byte>, jsonLength: nat): Option<seq<Byte>> {
    var binStart := JSON_START + jsonLength;
    if binStart + CHUNK_HEADER_SIZE > |file| then None
    else
      var binLength := ReadU32(file, binStart);
      if binStart + CHUNK_HEADER_SIZE + binLength > |file| then None
      else Some(file[binStart + CHUNK_HEADER_SIZE..binStart + CHUNK_HEADER_SIZE + binLength])
  }

  /** What follows a located JSON text: parse it, parse the document, copy the binary chunk. */
  function LoadDocument(file: seq<Byte>, text: seq<Byte>, parseJson: JsonParser): LoadOutcome {
    var doc := parseJson(text);
    if doc.None? then Fail(JsonParseFailed, DEFAULT_GLTF)
    else
      var parsed := GltfOf(doc.value);
      if !parsed.ok then Fail(GltfParseFailed, parsed.value)
      else
        var bin := BinChunk(file, |text|);
        if bin.None? then Fail(ChunkOutOfBounds, parsed.value)
        else LoadOutcome(None, parsed.value.(data := bin.value))
  }

  /** The load as written; None marks a read past the end of the file. */
  function LoadGlbAsWritten(file: seq<Byte>, parseJson: JsonParser): Option<LoadOutcome> {
    var json := JsonChunkAsWritten(file);
    if json.None? then None
    else if json.value.Failure? then Some(Fail(json.value.error, DEFAULT_GLTF))
    else
      var r := LoadDocument(file, json.value.value, parseJson);
      if r.error == Some(ChunkOutOfBounds) then None else Some(r)
  }

  /** The load with every read checked: a file that does not hold the chunks its lengths
      announce is rejected. */
  function LoadGlb(file: seq<Byte>, parseJson: JsonParser): LoadOutcome {
    var json := JsonChunk(file);
    if json.Failure? then Fail(json.error, DEFAULT_GLTF)
    else LoadDocument(file, json.value, parseJson)
  }

  /** The checked load changes nothing where the loader stays inside the file, and it rejects as
      out of bounds exactly the files the loader reads past the end of. */
  lemma CheckedLoadAgrees(file: seq<Byte>, parseJson: JsonParser)
    ensures LoadGlbAsWritten(file, parseJson).Some? ==> LoadGlb(file, parseJson) == LoadGlbAsWritten(file, parseJson).value
    ensures LoadGlbAsWritten(file, parseJson).None? <==> LoadGlb(file, parseJson).error == Some(ChunkOutOfBounds)
  {
  }

  /** The rejections, in the order the loader makes them, each leaving the output as reset. */
  lemma LoadGlbRejects(file: seq<Byte>, parseJson: JsonParser)
    ensures |file| == 0 ==> LoadGlb(file, parseJson) == Fail(EmptyFile, DEFAULT_GLTF)
    ensures 0 < |file| < 12 ==> LoadGlb(file, parseJson) == Fail(HeaderTooShort, DEFAULT_GLTF)
    ensures |file| >= 12 && ReadU32(file, 0) != GLTF_MAGIC ==> LoadGlb(file, parseJson) == Fail(BadMagic, DEFAULT_GLTF)
    ensures (|file| >= 12 && ReadU32(file, 0) == GLTF_MAGIC && ReadU32(file, 4) != 2) ==>
      LoadGlb(file, parseJson) == Fail(BadVersion, DEFAULT_GLTF)
    ensures (|file| >= 20 && ReadU32(file, 0) == GLTF_MAGIC && ReadU32(file, 4) == 2 &&
             ReadU32(file, 16) != GLTF_JSON_CHUNK) ==>
      LoadGlb(file, parseJson) == Fail(NotJsonChunk, DEFAULT_GLTF)
  {
  }

  /** A successful load has a well-formed header, a JSON chunk first, a parsed document, and the
      binary chunk that follows the JSON text as its data. */
  lemma LoadGlbAccepts(file: seq<Byte>, parseJson: JsonParser)
    requires LoadGlb(file, parseJson).Ok()
    ensures |file| >= JSON_START + CHUNK_HEADER_SIZE + ReadU32(file, 12)
    ensures ReadU32(file, 0) == GLTF_MAGIC && ReadU32(file, 4) == 2 && ReadU32(file, 16) == GLTF_JSON_CHUNK
    ensures var doc := parseJson(file[JSON_START..JSON_START + ReadU32(file, 12)]);
      doc.Some? && GltfOf(doc.value).ok &&
      LoadGlb(file, parseJson).gltf == GltfOf(doc.value).value.(data := BinChunk(file, ReadU32(file, 12)).value)
  {
    var json := JsonChunk(file);
    assert json.Success?;
    assert |json.value| == ReadU32(file, 12);
    assert BinChunk(file, |json.value|).Some?;
  }

  // ---------------------------------------------------------------------------
  // Files a writer produces

  /** A GLB file with the given JSON text and binary chunk, as section 4 of the glTF 2.0
      specification lays it out. */
  function GlbFile(json: seq<Byte>, bin: seq<Byte>): seq<Byte>
    requires |json| <= UINT32_MAX && |bin| <= UINT32_MAX && 28 + |json| + |bin| <= UINT32_MAX
  {
    EncodeWords([GLTF_MAGIC, 2, 28 + |json| + |bin|, |json|, GLTF_JSON_CHUNK]) + json +
    EncodeWords([|bin|, GLTF_BIN_CHUNK]) + bin
  }

  /** The words of the file header and the JSON chunk header read back. */
  lemma GlbHeaderWords(json: seq<Byte>, bin: seq<Byte>)
    requires |json| <= UINT32_MAX && |bin| <= UINT32_MAX && 28 + |json| + |bin| <= UINT32_MAX
    ensures var file := GlbFile(json, bin);
      |file| == 28 + |json| + |bin| &&
      ReadU32(file, 0) == GLTF_MAGIC && ReadU32(file, 4) == 2 && ReadU32(file, 12) == |json| &&
      ReadU32(file, 16) == GLTF_JSON_CHUNK
  {
    var ws: seq<U32> := [GLTF_MAGIC, 2, 28 + |json| + |bin|, |json|, GLTF_JSON_CHUNK];
    var post := json + EncodeWords([|bin|, GLTF_BIN_CHUNK]) + bin;
    assert GlbFile(json, bin) == [] + EncodeWords(ws) + post;
    ReadEncoded(ws, [], post, 0);
    ReadEncoded(ws, [], post, 1);
    ReadEncoded(ws, [], post, 3);
    ReadEncoded(ws, [], post, 4);
  }

  /** The JSON text, the binary chunk's length and its contents read back. */
  lemma GlbChunks(json: seq<Byte>, bin: seq<Byte>)
    requires |json| <= UINT32_MAX && |bin| <= UINT32_MAX && 28 + |json| + |bin| <= UINT32_MAX
    ensures var file := GlbFile(json, bin);
      |file| == 28 + |json| + |bin| &&
      file[JSON_START..JSON_START + |json|] == json &&
      ReadU32(file, JSON_START + |json|) == |bin| &&
      file[JSON_START + |json| + CHUNK_HEADER_SIZE..JSON_START + |json| + CHUNK_HEADER_SIZE + |bin|] == bin
  {
    var file := GlbFile(json, bin);
    var head := EncodeWords([GLTF_MAGIC, 2, 28 + |json| + |bin|, |json|, GLTF_JSON_CHUNK]);
    var ws: seq<U32> := [|bin|, GLTF_BIN_CHUNK];
    assert file == (head + json) + EncodeWords(ws) + bin;
    ReadEncoded(ws, head + json, bin, 0);
    assert file[JSON_START..JSON_START + |json|] == json;
    assert file[JSON_START + |json| + CHUNK_HEADER_SIZE..] == bin;
  }

  /** Loading a written GLB file gives its document, with the binary chunk as its data, exactly
      when the document parses. */
  lemma LoadWrittenGlb(json: seq<Byte>, bin: seq<Byte>, doc: Json, parseJson: JsonParser)
    requires |json| <= UINT32_MAX && |bin| <= UINT32_MAX && 28 + |json| + |bin| <= UINT32_MAX
    requires parseJson(json) == Some(doc)
    ensures LoadGlb(GlbFile(json, bin), parseJson) ==
      if GltfOf(doc).ok then LoadOutcome(None, GltfOf(doc).value.(data := bin))
      else Fail(GltfParseFailed, GltfOf(doc).value)
  {
    var file := GlbFile(json, bin);
    GlbHeaderWords(json, bin);
    GlbChunks(json, bin);
    assert JsonChunk(file) == Success(json);
    assert BinChunk(file, |json|) == Some(bin);
  }

  /** A GLB file holding only a JSON chunk. */
  function JsonOnlyFile(json: seq<Byte>): seq<Byte>
    requires |json| <= UINT32_MAX - 20
  {
    EncodeWords([GLTF_MAGIC, 2, 20 + |json|, |json|, GLTF_JSON_CHUNK]) + json
  }

  lemma JsonOnlyWords(json: seq<Byte>)
    requires |json| <= UINT32_MAX - 20
    ensures var file := JsonOnlyFile(json);
      |file| == 20 + |json| && ReadU32(file, 0) == GLTF_MAGIC && ReadU32(file, 4) == 2 &&
      ReadU32(file, 12) == |json| && ReadU32(file, 16) == GLTF_JSON_CHUNK
  {
    var ws: seq<U32> := [GLTF_MAGIC, 2, 20 + |json|, |json|, GLTF_JSON_CHUNK];
    assert JsonOnlyFile(json) == [] + EncodeWords(ws) + json;
    ReadEncoded(ws, [], json, 0);
    ReadEncoded(ws, [], json, 1);
    ReadEncoded(ws, [], json, 3);
    ReadEncoded(ws, [], json, 4);
  }

  lemma JsonOnlyChunks(json: seq<Byte>)
    requires |json| <= UINT32_MAX - 20
    ensures JsonChunk(JsonOnlyFile(json)) == Success(json)
    ensures BinChunk(JsonOnlyFile(json), |json|).None?
  {
    JsonOnlyWords(json);
    var head := EncodeWords([GLTF_MAGIC, 2, 20 + |json|, |json|, GLTF_JSON_CHUNK]);
    assert JsonOnlyFile(json)[|head|..] == json;
    assert JsonOnlyFile(json)[JSON_START..JSON_START + |json|] == json;
  }

  /** A GLB file with no binary chunk, which section 4.4 of the glTF 2.0 specification allows:
      the loader reads the missing chunk's header past the end of the file. */
  lemma JsonOnlyReadsPastEnd(json: seq<Byte>, doc: Json, parseJson: JsonParser)
    requires |json| <= UINT32_MAX - 20
    requires parseJson(json) == Some(doc) && GltfOf(doc).ok
    ensures LoadGlbAsWritten(JsonOnlyFile(json), parseJson).None?
    ensures LoadGlb(JsonOnlyFile(json), parseJson) == Fail(ChunkOutOfBounds, GltfOf(doc).value)
  {
    var file := JsonOnlyFile(json);
    JsonOnlyChunks(json);
    var r := LoadDocument(file, json, parseJson);
    assert r == Fail(ChunkOutOfBounds, GltfOf(doc).value);
    assert JsonChunkAsWritten(file) == Some(Success(json));
  }

  /** A bare 12-byte header passes every check the loader makes before it reads the JSON chunk's
      header, which lies past the end of the file. */
  lemma BareHeaderReadsPastEnd(parseJson: JsonParser)
    ensures var file := EncodeWords([GLTF_MAGIC, 2, 12]);
      LoadGlbAsWritten(file, parseJson).None? && LoadGlb(file, parseJson) == Fail(ChunkOutOfBounds, DEFAULT_GLTF)
  {
    var ws: seq<U32> := [GLTF_MAGIC, 2, 12];
    var file := EncodeWords(ws);
    assert file == [] + EncodeWords(ws) + [];
    ReadEncoded(ws, [], [], 0);
    ReadEncoded(ws, [], [], 1);
  }

  // ---------------------------------------------------------------------------
  // The loader

  /** The object the caller passes by pointer. */
  class GltfOutput {
    var gltf: Gltf

    constructor ()
      ensures gltf == DEFAULT_GLTF
    {
      gltf := DEFAULT_GLTF;
    }
  }

  /** GltfLoader_Load: refuse a missing output, reset it, read the file, check the container,
      parse the document into the output and copy the binary chunk. */
  method GltfLoaderLoad(path: string, readFile: string -> seq<Byte>, parseJson: JsonParser, out: GltfOutput?)
    returns (ok: bool)
    modifies out
    ensures out == null ==> !ok
    ensures out != null ==> ok == LoadGlb(readFile(path), parseJson).Ok() &&
                            out.gltf == LoadGlb(readFile(path), parseJson).gltf
  {
    if out == null {
      return false;
    }
    out.gltf := DEFAULT_GLTF;
    var file := readFile(path);
    var json := JsonChunk(file);
    if json.Failure? {
      return false;
    }
    var doc := parseJson(json.value);
    if doc.None? {
      return false;
    }
    var parsed, g := GltfParseDocument(doc.value);
    out.gltf := g;
    if !parsed {
      return false;
    }
    var bin := BinChunk(file, |json.value|);
    if bin.None? {
      return false;
    }
    out.gltf := out.gltf.(data := bin.value);
    ok := true;
  }
}
