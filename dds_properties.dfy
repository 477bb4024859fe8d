// What CreateTextureFromDDS and DDSTextureLoader_Load promise about the textures they
// describe (Utils/DDSTextureLoader.cpp:491-705).

module DdsProperties {

  import opened Wrappers
  import opened RenderFormats
  import opened DdsBytes
  import opened DdsPixelFormat
  import opened DdsHeaders
  import opened DdsFill
  import opened DdsCreate
  import RenderGraphTypes

  /** The bounds every accepted description respects: at most 15 mip levels and 2048 array
      slices, at least one of each, no palette format, a settled dimension, and the extents each
      dimension allows. */
  predicate WithinBounds(d: TextureDescEx) {
    1 <= d.mipCount <= 15 && 1 <= d.arraySize <= 2048 && !IsPalette(d.format) &&
    match d.dimension
    case NoDimension => false
    case Tex1D => d.height == 1 && d.depth == 1 && d.width <= 16384
    case Tex2D => d.depth == 1 && d.width <= 16384 && d.height <= 16384
    case Cubemap => d.depth == 1 && d.width <= 16384 && d.height <= 16384 && d.arraySize % 6 == 0
    case Tex3D => d.arraySize == 1 && d.width <= 2048 && d.height <= 2048 && d.depth <= 2048
  }

  lemma Dx10Bounds(h: DdsHeader, e: Dx10Header, dev: DdsDevice)
    requires HasDx10(h) && DescribeDds(h, Some(e), dev).Success?
    ensures var d := DescribeDds(h, Some(e), dev).value;
      WithinBounds(d) && d.format == dev.decodeFormat(e.format) && dev.bitsPerPixel(d.format) != 0 &&
      (d.dimension == Cubemap ==> d.arraySize == 6 * e.arraySize && HasFlag(e.miscFlag, DDS_MISC_FLAG_TEXTURE_CUBE)) &&
      (d.dimension == Tex3D ==> HasFlag(h.flags, DDS_HEADER_FLAGS_VOLUME))
  {
  }

  lemma LegacyBounds(h: DdsHeader, dev: DdsDevice)
    requires !HasDx10(h) && DescribeDds(h, None, dev).Success?
    ensures var d := DescribeDds(h, None, dev).value;
      WithinBounds(d) && d.format == GetRenderFormat(h.ddspf) && d.format != UNKNOWN && d.dimension != Tex1D &&
      (d.dimension == Cubemap ==> d.arraySize == 6 && AllFaces(h.caps2)) &&
      (d.dimension == Tex3D <==> HasFlag(h.flags, DDS_HEADER_FLAGS_VOLUME))
  {
    LegacyNotPalette(h.ddspf);
  }

  lemma LegacyNotPalette(pf: PixelFormat)
    ensures !IsPalette(GetRenderFormat(pf))
  {
  }

  /** Every description an accepted header yields is within bounds. */
  lemma DescribeWithinBounds(h: DdsHeader, dx10: Option<Dx10Header>, dev: DdsDevice)
    requires HasDx10(h) ==> dx10.Some?
    requires DescribeDds(h, dx10, dev).Success?
    ensures WithinBounds(DescribeDds(h, dx10, dev).value)
    ensures DescribeDds(h, dx10, dev).value.mipCount == if h.mipMapCount == 0 then 1 else h.mipMapCount
    ensures DescribeDds(h, dx10, dev).value.width == h.width
  {
    if HasDx10(h) {
      Dx10Bounds(h, dx10.value, dev);
    } else {
      LegacyBounds(h, dev);
    }
  }

  /** A legacy header that is neither a volume nor a cube map is accepted as a 2D texture exactly
      when its pixel format is known, it has at most 15 mip levels, and both extents are at most
      16384; the texture then has one slice of depth one. */
  lemma LegacyTexture2D(h: DdsHeader, dev: DdsDevice)
    requires !HasDx10(h) && !HasFlag(h.flags, DDS_HEADER_FLAGS_VOLUME) && !HasFlag(h.caps2, DDS_CUBEMAP)
    ensures var mips := if h.mipMapCount == 0 then 1 else h.mipMapCount;
      DescribeDds(h, None, dev).Success? <==>
        GetRenderFormat(h.ddspf) != UNKNOWN && mips <= 15 && h.width <= 16384 && h.height <= 16384
    ensures var mips := if h.mipMapCount == 0 then 1 else h.mipMapCount;
      DescribeDds(h, None, dev).Success? ==>
        DescribeDds(h, None, dev).value ==
        TextureDescEx(h.width, h.height, 1, mips, 1, GetRenderFormat(h.ddspf), Tex2D)
  {
  }

  /** A legacy cube map needs all six faces. */
  lemma LegacyCubeNeedsAllFaces(h: DdsHeader, dev: DdsDevice)
    requires !HasDx10(h) && !HasFlag(h.flags, DDS_HEADER_FLAGS_VOLUME) && HasFlag(h.caps2, DDS_CUBEMAP)
    requires GetRenderFormat(h.ddspf) != UNKNOWN
    ensures !AllFaces(h.caps2) ==> DescribeDds(h, None, dev) == Failure(MissingFaces)
    ensures AllFaces(h.caps2) && DescribeDds(h, None, dev).Success? ==>
      DescribeDds(h, None, dev).value.dimension == Cubemap && DescribeDds(h, None, dev).value.arraySize == 6
  {
  }

  /** The DX10 rejections, in the order the branch makes them. */
  lemma Dx10Rejections(h: DdsHeader, e: Dx10Header, dev: DdsDevice)
    requires HasDx10(h)
    ensures e.arraySize == 0 ==> DescribeDds(h, Some(e), dev) == Failure(ZeroArraySize)
    ensures e.arraySize != 0 && IsPalette(dev.decodeFormat(e.format)) ==>
      DescribeDds(h, Some(e), dev) == Failure(UnsupportedFormat)
    ensures e.resourceDimension !in {DDS_DIMENSION_TEXTURE1D, DDS_DIMENSION_TEXTURE2D, DDS_DIMENSION_TEXTURE3D} ==>
      DescribeDds(h, Some(e), dev).Failure?
    ensures e.resourceDimension == DDS_DIMENSION_TEXTURE3D && !HasFlag(h.flags, DDS_HEADER_FLAGS_VOLUME) ==>
      DescribeDds(h, Some(e), dev).Failure?
    ensures e.resourceDimension == DDS_DIMENSION_TEXTURE3D && e.arraySize > 1 ==>
      DescribeDds(h, Some(e), dev).Failure?
  {
  }

  /** With no size cap, as DDSTextureLoader_Load calls it, an accepted texture has a record for
      every mip level of every slice, in the order the payload holds them, and (with a depth of at
      least one) each record lies inside the payload and ends before the next begins. */
  lemma CreateRecordsEverySubresource(h: DdsHeader, dx10: Option<Dx10Header>, bitSize: nat, dev: DdsDevice)
    requires HasDx10(h) ==> dx10.Some?
    requires CreateFromDds(h, dx10, bitSize, 0, dev).Success?
    ensures var r := CreateFromDds(h, dx10, bitSize, 0, dev).value;
      var p := FillParamsOf(r.desc, 0, bitSize);
      r.desc == DescribeDds(h, dx10, dev).value && WithinBounds(r.desc) &&
      r.resourceFormat == r.srvFormat == r.desc.format && r.flags == {RenderGraphTypes.SRV} &&
      |r.data| == r.desc.mipCount * r.desc.arraySize && r.data == Fill(p, dev.surface).entries &&
      (r.desc.depth >= 1 ==>
        (forall k :: 0 <= k < |r.data| ==> r.data[k].offset + r.data[k].slicePitch <= bitSize) &&
        (forall k :: 0 <= k < |r.data| - 1 ==> r.data[k].offset + r.data[k].slicePitch <= r.data[k + 1].offset))
  {
    var r := CreateFromDds(h, dx10, bitSize, 0, dev).value;
    var p := FillParamsOf(r.desc, 0, bitSize);
    DescribeWithinBounds(h, dx10, dev);
    FillKeepsAll(p, dev.surface);
    assert r.data == Fill(p, dev.surface).entries;
    if r.desc.depth >= 1 {
      FillWithinPayload(p, dev.surface);
    }
  }

  // ---------------------------------------------------------------------------
  // A writer's legacy 2D file, loaded back

  /** The header a writer stores for a plain 2D texture of a format with a legacy pixel format. */
  function Legacy2DHeader(width: U32, height: U32, mips: U32, f: RenderFormat): DdsHeader
    requires LegacyPixelFormat(f).Some?
  {
    DdsHeader(HEADER_SIZE, 0x2_1007, height, width, 0, 0, mips, seq(11, _ => 0), LegacyPixelFormat(f).value,
              0x1000, 0, 0, 0, 0)
  }

  /** A written 2D header describes the texture it was written for. */
  lemma DescribeLegacy2D(width: U32, height: U32, mips: U32, f: RenderFormat, dev: DdsDevice)
    requires LegacyPixelFormat(f).Some? && 1 <= mips <= 15 && width <= 16384 && height <= 16384
    ensures !HasDx10(Legacy2DHeader(width, height, mips, f))
    ensures DescribeDds(Legacy2DHeader(width, height, mips, f), None, dev) ==
            Success(TextureDescEx(width, height, 1, mips, 1, f, Tex2D))
  {
    var h := Legacy2DHeader(width, height, mips, f);
    LegacyRoundTrip(f);
    LegacyTexture2D(h, dev);
  }

  /** Loading a file a writer produced gives exactly what creating from its header gives, with
      the payload's length as the bit size and no size cap. */
  lemma LoadWrittenFile(h: DdsHeader, dx10: Option<Dx10Header>, payload: seq<Byte>,
                        path: string, readFile: string -> seq<Byte>, dev: DdsDevice)
    requires WellFormed(h) && h.size == HEADER_SIZE && h.ddspf.size == PIXELFORMAT_SIZE
    requires dx10.Some? <==> HasDx10(h)
    requires readFile(path) == DdsFile(h, dx10, payload)
    ensures var c := CreateFromDds(h, dx10, |payload|, 0, dev);
      LoadDdsSpec(Some(path), readFile, dev) == if c.Failure? then Failure(CreateFailed(c.error)) else Success(c.value)
  {
    LoadWritten(h, dx10, payload);
  }

  /** Creating from a written 2D header succeeds exactly when the walk does, and records every
      mip level. */
  lemma CreateLegacy2D(width: U32, height: U32, mips: U32, f: RenderFormat, bitSize: nat, dev: DdsDevice)
    requires LegacyPixelFormat(f).Some? && 1 <= mips <= 15 && width <= 16384 && height <= 16384
    ensures !HasDx10(Legacy2DHeader(width, height, mips, f))
    ensures var p := FillParams(width, height, 1, mips, 1, f, 0, bitSize);
      var c := CreateFromDds(Legacy2DHeader(width, height, mips, f), None, bitSize, 0, dev);
      (c.Success? <==> FillSucceeds(p, dev.surface)) &&
      (c.Success? ==> c.value == TextureRequest(TextureDescEx(width, height, 1, mips, 1, f, Tex2D), f, f,
                                                {RenderGraphTypes.SRV}, Fill(p, dev.surface).entries))
  {
    var desc := TextureDescEx(width, height, 1, mips, 1, f, Tex2D);
    var p := FillParams(width, height, 1, mips, 1, f, 0, bitSize);
    DescribeLegacy2D(width, height, mips, f, dev);
    assert FillParamsOf(desc, 0, bitSize) == p;
    FillKeepsAll(p, dev.surface);
    if FillSucceeds(p, dev.surface) {
      assert RequestData(p, dev.surface) == Fill(p, dev.surface).entries;
    }
  }

  /** Loading the file a writer produced for a 2D texture gives that texture's request exactly
      when the payload holds every one of its mip levels, and the request then records all of
      them. */
  lemma LoadLegacy2D(width: U32, height: U32, mips: U32, f: RenderFormat, payload: seq<Byte>,
                     path: string, readFile: string -> seq<Byte>, dev: DdsDevice)
    requires LegacyPixelFormat(f).Some? && 1 <= mips <= 15 && width <= 16384 && height <= 16384
    requires readFile(path) == DdsFile(Legacy2DHeader(width, height, mips, f), None, payload)
    ensures var p := FillParams(width, height, 1, mips, 1, f, 0, |payload|);
      var r := LoadDdsSpec(Some(path), readFile, dev);
      (r.Success? <==> FillSucceeds(p, dev.surface)) &&
      (r.Success? ==> r.value == TextureRequest(TextureDescEx(width, height, 1, mips, 1, f, Tex2D), f, f,
                                                {RenderGraphTypes.SRV}, Fill(p, dev.surface).entries))
  {
    var h := Legacy2DHeader(width, height, mips, f);
    LegacyRoundTrip(f);
    assert WellFormed(h) && h.size == HEADER_SIZE && h.ddspf.size == PIXELFORMAT_SIZE;
    CreateLegacy2D(width, height, mips, f, |payload|, dev);
    LoadWrittenFile(h, None, payload, path, readFile, dev);
  }
}
