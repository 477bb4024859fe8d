// CreateTextureFromDDS and DDSTextureLoader_Load (Utils/DDSTextureLoader.cpp:491-705):
// what a loaded header describes, the bounds it must respect, and the texture request
// handed to the device.

module DdsCreate {

  import opened Wrappers
  import opened RenderFormats
  import opened DdsBytes
  import opened DdsPixelFormat
  import opened DdsHeaders
  import opened DdsFill
  import RenderGraphTypes

  // Header flags, cube-map capability bits and DX10 resource dimensions (lines 45-68).
  const DDS_HEIGHT: U32 := 0x2
  const DDS_HEADER_FLAGS_VOLUME: U32 := 0x80_0000
  const DDS_CUBEMAP: U32 := 0x200
  const DDS_MISC_FLAG_TEXTURE_CUBE: U32 := 0x4
  const DDS_DIMENSION_TEXTURE1D: nat := 2
  const DDS_DIMENSION_TEXTURE2D: nat := 3
  const DDS_DIMENSION_TEXTURE3D: nat := 4

  /** `(caps2 & DDS_CUBEMAP_ALLFACES) == DDS_CUBEMAP_ALLFACES`: the cube-map bit and the six face
      bits 0x400 to 0x8000 are all set. */
  predicate AllFaces(caps2: U32) {
    HasFlag(caps2, 0x200) && HasFlag(caps2, 0x400) && HasFlag(caps2, 0x800) && HasFlag(caps2, 0x1000) &&
    HasFlag(caps2, 0x2000) && HasFlag(caps2, 0x4000) && HasFlag(caps2, 0x8000)
  }

  /** The device-layer services the loader calls. */
  datatype DdsDevice = DdsDevice(
    decodeFormat: U32 -> RenderFormat,      // the engine's format number stored in a DX10 header
    bitsPerPixel: RenderFormat -> nat,      // Textures_BitsPerPixel
    surface: SurfaceOracle)                 // Textures_GetSurfaceInfo

  datatype TextureDimension = NoDimension | Tex1D | Tex2D | Tex3D | Cubemap

  /** The fields of TextureCreateDescEx the loader sets; `format` is both the resource and the
      view format. */
  datatype TextureDescEx = TextureDescEx(width: nat, height: nat, depth: nat, mipCount: nat, arraySize: nat,
                                         format: RenderFormat, dimension: TextureDimension)

  /** Every error is Texture_t::INVALID in the source; the kinds name the check that failed. */
  datatype CreateError =
    | ZeroArraySize | UnsupportedFormat | HeightNotOne | NotVolume | VolumeArray | UnsupportedDimension
    | MissingFaces | TooManyMips | TooLarge | FillFailed

  /** The palette formats the DX10 branch refuses by name. */
  predicate IsPalette(f: RenderFormat) {
    f.AI44? || f.IA44? || f.P8? || f.A8P8?
  }

  /** The description a header starts from. */
  function BaseDesc(h: DdsHeader): TextureDescEx {
    TextureDescEx(h.width, h.height, h.depth, if h.mipMapCount == 0 then 1 else h.mipMapCount, 1, UNKNOWN, NoDimension)
  }

  /** A description together with the DX10 resource dimension it was classified under. */
  datatype Shaped = Shaped(desc: TextureDescEx, resDim: nat)

  /** The DX10 branch (lines 513-570). */
  function ShapeDx10(h: DdsHeader, e: Dx10Header, dev: DdsDevice): Result<Shaped, CreateError> {
    var f := dev.decodeFormat(e.format);
    var desc := BaseDesc(h).(arraySize := e.arraySize, format := f);
    if e.arraySize == 0 then Failure(ZeroArraySize)
    else if IsPalette(f) || dev.bitsPerPixel(f) == 0 then Failure(UnsupportedFormat)
    else if e.resourceDimension == DDS_DIMENSION_TEXTURE1D then
      if HasFlag(h.flags, DDS_HEIGHT) && desc.height != 1 then Failure(HeightNotOne)
      else Success(Shaped(desc.(height := 1, depth := 1), DDS_DIMENSION_TEXTURE1D))
    else if e.resourceDimension == DDS_DIMENSION_TEXTURE2D then
      var cube := if HasFlag(e.miscFlag, DDS_MISC_FLAG_TEXTURE_CUBE)
                  then desc.(arraySize := desc.arraySize * 6, dimension := Cubemap) else desc;
      Success(Shaped(cube.(depth := 1), DDS_DIMENSION_TEXTURE2D))
    else if e.resourceDimension == DDS_DIMENSION_TEXTURE3D then
      if !HasFlag(h.flags, DDS_HEADER_FLAGS_VOLUME) then Failure(NotVolume)
      else if desc.arraySize > 1 then Failure(VolumeArray)
      else Success(Shaped(desc, DDS_DIMENSION_TEXTURE3D))
    else Failure(UnsupportedDimension)
  }

  /** The legacy branch (lines 571-604); a legacy header cannot describe a 1D texture. */
  function ShapeLegacy(h: DdsHeader): Result<Shaped, CreateError> {
    var f := GetRenderFormat(h.ddspf);
    var desc := BaseDesc(h).(format := f);
    if f == UNKNOWN then Failure(UnsupportedFormat)
    else if HasFlag(h.flags, DDS_HEADER_FLAGS_VOLUME) then Success(Shaped(desc, DDS_DIMENSION_TEXTURE3D))
    else if HasFlag(h.caps2, DDS_CUBEMAP) then
      if !AllFaces(h.caps2) then Failure(MissingFaces)
      else Success(Shaped(desc.(arraySize := 6, dimension := Cubemap, depth := 1), DDS_DIMENSION_TEXTURE2D))
    else Success(Shaped(desc.(depth := 1), DDS_DIMENSION_TEXTURE2D))
  }

  /** The size bounds (lines 606-671), which also settle the dimension. */
  function Bound(s: Shaped): Result<TextureDescEx, CreateError> {
    var d := s.desc;
    if d.mipCount > 15 then Failure(TooManyMips)
    else if s.resDim == DDS_DIMENSION_TEXTURE1D then
      if d.arraySize > 2048 || d.width > 16384 then Failure(TooLarge)
      else Success(d.(dimension := Tex1D))
    else if s.resDim == DDS_DIMENSION_TEXTURE2D then
      if d.arraySize > 2048 || d.width > 16384 || d.height > 16384 then Failure(TooLarge)
      else if d.dimension == Cubemap then Success(d)
      else Success(d.(dimension := Tex2D))
    else if s.resDim == DDS_DIMENSION_TEXTURE3D then
      if d.arraySize > 1 || d.width > 2048 || d.height > 2048 || d.depth > 2048 then Failure(TooLarge)
      else Success(d.(dimension := Tex3D))
    else Failure(UnsupportedDimension)
  }

  /** Lines 501-674: the description a header yields, or the check it fails.  The caller must pass
      the extension that follows the header whenever the header announces one. */
  function DescribeDds(h: DdsHeader, dx10: Option<Dx10Header>, dev: DdsDevice): Result<TextureDescEx, CreateError>
    requires HasDx10(h) ==> dx10.Some?
  {
    var shaped := if HasDx10(h) then ShapeDx10(h, dx10.value, dev) else ShapeLegacy(h);
    if shaped.Failure? then Failure(shaped.error) else Bound(shaped.value)
  }

  /** What CreateTextureEx receives: the description, the resource and view formats, the
      resource flags (RenderResourceFlags, a set of view kinds) and the subresource records. */
  datatype TextureRequest = TextureRequest(desc: TextureDescEx, resourceFormat: RenderFormat, srvFormat: RenderFormat,
                                           flags: set<RenderGraphTypes.ViewKind>, data: seq<MipData>)

  /** The request for a description: both formats are the description's own, and the texture
      is a shader resource only. */
  function RequestOf(desc: TextureDescEx, data: seq<MipData>): TextureRequest {
    TextureRequest(desc, desc.format, desc.format, {RenderGraphTypes.SRV}, data)
  }

  /** The value a freshly allocated record array holds before the walk writes it. */
  const UNSET: MipData := MipData(0, 0, 0)

  function FillParamsOf(desc: TextureDescEx, maxSize: nat, bitSize: nat): FillParams {
    FillParams(desc.width, desc.height, desc.depth, desc.mipCount, desc.arraySize, desc.format, maxSize, bitSize)
  }

  /** The records CreateTextureEx sees: those the walk wrote, then the cells it left alone. */
  function RequestData(p: FillParams, surface: SurfaceOracle): (data: seq<MipData>)
    ensures |data| == p.mipCount * p.arraySize
  {
    FillRecordsAtMost(p, surface);
    var n := |Fill(p, surface).entries|;
    Fill(p, surface).entries + seq(p.mipCount * p.arraySize - n, _ => UNSET)
  }

  /** CreateTextureFromDDS as a function of the header, the payload size and the device. */
  function CreateFromDds(h: DdsHeader, dx10: Option<Dx10Header>, bitSize: nat, maxSize: nat, dev: DdsDevice)
    : Result<TextureRequest, CreateError>
    requires HasDx10(h) ==> dx10.Some?
  {
    var d := DescribeDds(h, dx10, dev);
    if d.Failure? then Failure(d.error)
    else
      var p := FillParamsOf(d.value, maxSize, bitSize);
      if !FillSucceeds(p, dev.surface) then Failure(FillFailed)
      else Success(RequestOf(d.value, RequestData(p, dev.surface)))
  }

  /** The allocation of one record per subresource and the walk over the payload. */
  method FillRecords(p: FillParams, surface: SurfaceOracle) returns (ok: bool, data: seq<MipData>)
    ensures ok == FillSucceeds(p, surface)
    ensures ok ==> data == RequestData(p, surface)
  {
    var initData := new MipData[p.mipCount * p.arraySize](_ => UNSET);
    ghost var before := initData[..];
    var twidth, theight, tdepth, skipMip;
    ok, twidth, theight, tdepth, skipMip := FillInitData(p, surface, true, initData, 0, 0, 0, 0);
    FilledCells(Fill(p, surface).entries, before, initData[..]);
    data := initData[..];
  }

  /** CreateTextureFromDDS: describe, fill the records, and build the request. */
  method CreateTextureFromDDS(h: DdsHeader, dx10: Option<Dx10Header>, bitSize: nat, maxSize: nat, dev: DdsDevice)
    returns (r: Result<TextureRequest, CreateError>)
    requires HasDx10(h) ==> dx10.Some?
    ensures r == CreateFromDds(h, dx10, bitSize, maxSize, dev)
  {
    var d := DescribeDds(h, dx10, dev);
    if d.Failure? {
      return Failure(d.error);
    }
    var ok, data := FillRecords(FillParamsOf(d.value, maxSize, bitSize), dev.surface);
    if !ok {
      return Failure(FillFailed);
    }
    r := Success(RequestOf(d.value, data));
  }

  /** Cells written with `entries` from the start, the rest as allocated. */
  lemma FilledCells(entries: seq<MipData>, before: seq<MipData>, after: seq<MipData>)
    requires |entries| <= |after| == |before| && after[..|entries|] == entries
    requires forall k :: 0 <= k < |before| ==> before[k] == UNSET
    requires forall k :: |entries| <= k < |after| ==> after[k] == before[k]
    ensures after == entries + seq(|after| - |entries|, _ => UNSET)
  {
  }

  datatype DdsError = NoPath | LoadFailed(load: LoadError) | CreateFailed(create: CreateError)

  /** DDSTextureLoader_Load: read the file, check it, and create the texture with no size cap. */
  function LoadDdsSpec(path: Option<string>, readFile: string -> seq<Byte>, dev: DdsDevice)
    : Result<TextureRequest, DdsError>
  {
    if path.None? then Failure(NoPath)
    else
      var file := readFile(path.value);
      var l := LoadTextureData(file);
      if l.Failure? then Failure(LoadFailed(l.error))
      else
        LoadedShape(file);
        var c := CreateFromDds(l.value.header, l.value.dx10, l.value.bitSize, 0, dev);
        if c.Failure? then Failure(CreateFailed(c.error)) else Success(c.value)
  }

  method DDSTextureLoaderLoad(path: Option<string>, readFile: string -> seq<Byte>, dev: DdsDevice)
    returns (r: Result<TextureRequest, DdsError>)
    ensures r == LoadDdsSpec(path, readFile, dev)
  {
    if path.None? {
      return Failure(NoPath);
    }
    var file := readFile(path.value);
    var l := LoadTextureData(file);
    if l.Failure? {
      return Failure(LoadFailed(l.error));
    }
    LoadedShape(file);
    var c := CreateTextureFromDDS(l.value.header, l.value.dx10, l.value.bitSize, 0, dev);
    if c.Failure? {
      return Failure(CreateFailed(c.error));
    }
    r := Success(c.value);
  }
}
