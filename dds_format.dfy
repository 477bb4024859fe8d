// The legacy DDS pixel format and its mapping to a RenderFormat
// (Utils/DDSTextureLoader.cpp:27-47 and 106-346).

module DdsPixelFormat {

  import opened DdsBytes
  import opened RenderFormats
  import opened Wrappers

  /** DDS_PIXELFORMAT. */
  datatype PixelFormat = PixelFormat(size: U32, flags: U32, fourCC: U32, rgbBitCount: U32,
                                     rBitMask: U32, gBitMask: U32, bBitMask: U32, aBitMask: U32)

  const DDS_FOURCC: U32 := 0x0000_0004
  const DDS_RGB: U32 := 0x0000_0040
  const DDS_LUMINANCE: U32 := 0x0002_0000
  const DDS_ALPHA: U32 := 0x0000_0002
  const DDS_BUMPDUDV: U32 := 0x0008_0000

  // The FourCC codes the loader recognises, as the words MAKEFOURCC builds from their characters.
  const FOURCC_DXT1: U32 := 0x3154_5844
  const FOURCC_DXT3: U32 := 0x3354_5844
  const FOURCC_DXT5: U32 := 0x3554_5844
  const FOURCC_DXT2: U32 := 0x3254_5844
  const FOURCC_DXT4: U32 := 0x3454_5844
  const FOURCC_ATI1: U32 := 0x3149_5441
  const FOURCC_BC4U: U32 := 0x5534_4342
  const FOURCC_BC4S: U32 := 0x5334_4342
  const FOURCC_ATI2: U32 := 0x3249_5441
  const FOURCC_BC5U: U32 := 0x5535_4342
  const FOURCC_BC5S: U32 := 0x5335_4342
  const FOURCC_RGBG: U32 := 0x4742_4752
  const FOURCC_GRGB: U32 := 0x4247_5247
  const FOURCC_YUY2: U32 := 0x3259_5559
  const FOURCC_DX10: U32 := 0x3031_5844

  lemma FourCCCodesSpelled()
    ensures FOURCC_DXT1 == MakeFourCC('D', 'X', 'T', '1')
    ensures FOURCC_DXT3 == MakeFourCC('D', 'X', 'T', '3')
    ensures FOURCC_DXT5 == MakeFourCC('D', 'X', 'T', '5')
    ensures FOURCC_DXT2 == MakeFourCC('D', 'X', 'T', '2')
    ensures FOURCC_DXT4 == MakeFourCC('D', 'X', 'T', '4')
    ensures FOURCC_ATI1 == MakeFourCC('A', 'T', 'I', '1')
    ensures FOURCC_BC4U == MakeFourCC('B', 'C', '4', 'U')
    ensures FOURCC_BC4S == MakeFourCC('B', 'C', '4', 'S')
    ensures FOURCC_ATI2 == MakeFourCC('A', 'T', 'I', '2')
    ensures FOURCC_BC5U == MakeFourCC('B', 'C', '5', 'U')
    ensures FOURCC_BC5S == MakeFourCC('B', 'C', '5', 'S')
    ensures FOURCC_RGBG == MakeFourCC('R', 'G', 'B', 'G')
    ensures FOURCC_GRGB == MakeFourCC('G', 'R', 'G', 'B')
    ensures FOURCC_YUY2 == MakeFourCC('Y', 'U', 'Y', '2')
    ensures FOURCC_DX10 == MakeFourCC('D', 'X', '1', '0')
  {
  }

  /** ISBITMASK. */
  predicate IsBitMask(pf: PixelFormat, r: U32, g: U32, b: U32, a: U32) {
    pf.rBitMask == r && pf.gBitMask == g && pf.bBitMask == b && pf.aBitMask == a
  }

  function RgbFormat(pf: PixelFormat): RenderFormat {
    if pf.rgbBitCount == 32 then
      if IsBitMask(pf, 0x0000_00ff, 0x0000_ff00, 0x00ff_0000, 0xff00_0000) then R8G8B8A8_UNORM
      else if IsBitMask(pf, 0x00ff_0000, 0x0000_ff00, 0x0000_00ff, 0xff00_0000) then B8G8R8A8_UNORM
      else if IsBitMask(pf, 0x00ff_0000, 0x0000_ff00, 0x0000_00ff, 0) then B8G8R8X8_UNORM
      else if IsBitMask(pf, 0x3ff0_0000, 0x000f_fc00, 0x0000_03ff, 0xc000_0000) then R10G10B10A2_UNORM
      else if IsBitMask(pf, 0x0000_ffff, 0xffff_0000, 0, 0) then R16G16_UNORM
      else if IsBitMask(pf, 0xffff_ffff, 0, 0, 0) then R32_FLOAT
      else UNKNOWN
    else if pf.rgbBitCount == 16 then
      if IsBitMask(pf, 0x7c00, 0x03e0, 0x001f, 0x8000) then B5G5R5A1_UNORM
      else if IsBitMask(pf, 0xf800, 0x07e0, 0x001f, 0) then B5G6R5_UNORM
      else if IsBitMask(pf, 0x0f00, 0x00f0, 0x000f, 0xf000) then B4G4R4A4_UNORM
      else UNKNOWN
    else UNKNOWN
  }

  function LuminanceFormat(pf: PixelFormat): RenderFormat {
    if pf.rgbBitCount == 8 && IsBitMask(pf, 0xff, 0, 0, 0) then R8_UNORM
    else if pf.rgbBitCount == 8 && IsBitMask(pf, 0x00ff, 0, 0, 0xff00) then R8G8_UNORM
    else if pf.rgbBitCount == 16 && IsBitMask(pf, 0xffff, 0, 0, 0) then R16_UNORM
    else if pf.rgbBitCount == 16 && IsBitMask(pf, 0x00ff, 0, 0, 0xff00) then R8G8_UNORM
    else UNKNOWN
  }

  function BumpFormat(pf: PixelFormat): RenderFormat {
    if pf.rgbBitCount == 16 && IsBitMask(pf, 0x00ff, 0xff00, 0, 0) then R8G8_SNORM
    else if pf.rgbBitCount == 32 && IsBitMask(pf, 0x0000_00ff, 0x0000_ff00, 0x00ff_0000, 0xff00_0000) then R8G8B8A8_SNORM
    else if pf.rgbBitCount == 32 && IsBitMask(pf, 0x0000_ffff, 0xffff_0000, 0, 0) then R16G16_SNORM
    else UNKNOWN
  }

  function FourCCFormat(code: U32): RenderFormat {
    if code == FOURCC_DXT1 then BC1_UNORM
    else if code == FOURCC_DXT3 then BC2_UNORM
    else if code == FOURCC_DXT5 then BC3_UNORM
    else if code == FOURCC_DXT2 then BC2_UNORM
    else if code == FOURCC_DXT4 then BC3_UNORM
    else if code == FOURCC_ATI1 then BC4_UNORM
    else if code == FOURCC_BC4U then BC4_UNORM
    else if code == FOURCC_BC4S then BC4_SNORM
    else if code == FOURCC_ATI2 then BC5_UNORM
    else if code == FOURCC_BC5U then BC5_UNORM
    else if code == FOURCC_BC5S then BC5_SNORM
    else if code == FOURCC_RGBG then R8G8_B8G8_UNORM
    else if code == FOURCC_GRGB then G8R8_G8B8_UNORM
    else if code == FOURCC_YUY2 then YUY2
    else if code == 36 then R16G16B16A16_UNORM
    else if code == 110 then R16G16B16A16_SNORM
    else if code == 111 then R16_FLOAT
    else if code == 112 then R16G16_FLOAT
    else if code == 113 then R16G16B16A16_FLOAT
    else if code == 114 then R32_FLOAT
    else if code == 115 then R32G32_FLOAT
    else if code == 116 then R32G32B32A32_FLOAT
    else UNKNOWN
  }

  /** GetRenderFormat: the first of the RGB, LUMINANCE, ALPHA, BUMPDUDV and FOURCC flags that is
      set decides which table is consulted; nothing else is tried after it. */
  function GetRenderFormat(pf: PixelFormat): RenderFormat {
    if HasFlag(pf.flags, DDS_RGB) then RgbFormat(pf)
    else if HasFlag(pf.flags, DDS_LUMINANCE) then LuminanceFormat(pf)
    else if HasFlag(pf.flags, DDS_ALPHA) then (if pf.rgbBitCount == 8 then A8_UNORM else UNKNOWN)
    else if HasFlag(pf.flags, DDS_BUMPDUDV) then BumpFormat(pf)
    else if HasFlag(pf.flags, DDS_FOURCC) then FourCCFormat(pf.fourCC)
    else UNKNOWN
  }

  // ---------------------------------------------------------------------------
  // A writer's pixel format for each format the table reads

  function Masked(flags: U32, bits: U32, r: U32, g: U32, b: U32, a: U32): PixelFormat {
    PixelFormat(32, flags, 0, bits, r, g, b, a)
  }

  function WithFourCC(code: U32): PixelFormat {
    PixelFormat(32, 0x4, code, 0, 0, 0, 0, 0)
  }

  /** The legacy pixel format a DDS writer stores for `f`; formats the table does not read
      (UNKNOWN, the palette formats, depth and integer formats) have none. */
  function LegacyPixelFormat(f: RenderFormat): Option<PixelFormat> {
    match f
    case R8G8B8A8_UNORM => Some(Masked(0x40, 32, 0x0000_00ff, 0x0000_ff00, 0x00ff_0000, 0xff00_0000))
    case B8G8R8A8_UNORM => Some(Masked(0x40, 32, 0x00ff_0000, 0x0000_ff00, 0x0000_00ff, 0xff00_0000))
    case B8G8R8X8_UNORM => Some(Masked(0x40, 32, 0x00ff_0000, 0x0000_ff00, 0x0000_00ff, 0))
    case R10G10B10A2_UNORM => Some(Masked(0x40, 32, 0x3ff0_0000, 0x000f_fc00, 0x0000_03ff, 0xc000_0000))
    case R16G16_UNORM => Some(Masked(0x40, 32, 0x0000_ffff, 0xffff_0000, 0, 0))
    case R32_FLOAT => Some(WithFourCC(114))
    case B5G5R5A1_UNORM => Some(Masked(0x40, 16, 0x7c00, 0x03e0, 0x001f, 0x8000))
    case B5G6R5_UNORM => Some(Masked(0x40, 16, 0xf800, 0x07e0, 0x001f, 0))
    case B4G4R4A4_UNORM => Some(Masked(0x40, 16, 0x0f00, 0x00f0, 0x000f, 0xf000))
    case R8_UNORM => Some(Masked(0x2_0000, 8, 0xff, 0, 0, 0))
    case R8G8_UNORM => Some(Masked(0x2_0000, 16, 0x00ff, 0, 0, 0xff00))
    case R16_UNORM => Some(Masked(0x2_0000, 16, 0xffff, 0, 0, 0))
    case A8_UNORM => Some(Masked(0x2, 8, 0, 0, 0, 0xff))
    case R8G8_SNORM => Some(Masked(0x8_0000, 16, 0x00ff, 0xff00, 0, 0))
    case R8G8B8A8_SNORM => Some(Masked(0x8_0000, 32, 0x0000_00ff, 0x0000_ff00, 0x00ff_0000, 0xff00_0000))
    case R16G16_SNORM => Some(Masked(0x8_0000, 32, 0x0000_ffff, 0xffff_0000, 0, 0))
    case BC1_UNORM => Some(WithFourCC(FOURCC_DXT1))
    case BC2_UNORM => Some(WithFourCC(FOURCC_DXT3))
    case BC3_UNORM => Some(WithFourCC(FOURCC_DXT5))
    case BC4_UNORM => Some(WithFourCC(FOURCC_BC4U))
    case BC4_SNORM => Some(WithFourCC(FOURCC_BC4S))
    case BC5_UNORM => Some(WithFourCC(FOURCC_BC5U))
    case BC5_SNORM => Some(WithFourCC(FOURCC_BC5S))
    case R8G8_B8G8_UNORM => Some(WithFourCC(FOURCC_RGBG))
    case G8R8_G8B8_UNORM => Some(WithFourCC(FOURCC_GRGB))
    case YUY2 => Some(WithFourCC(FOURCC_YUY2))
    case R16G16B16A16_UNORM => Some(WithFourCC(36))
    case R16G16B16A16_SNORM => Some(WithFourCC(110))
    case R16_FLOAT => Some(WithFourCC(111))
    case R16G16_FLOAT => Some(WithFourCC(112))
    case R16G16B16A16_FLOAT => Some(WithFourCC(113))
    case R32G32_FLOAT => Some(WithFourCC(115))
    case R32G32B32A32_FLOAT => Some(WithFourCC(116))
    case _ => None
  }

  /** A pixel format a file can carry in a legacy header: the size the loader demands, and not
      the FourCC that announces a DX10 extension. */
  predicate Storable(pf: PixelFormat) {
    pf.size == 32 && pf.fourCC != FOURCC_DX10
  }

  // The round trip, one family of formats at a time.

  predicate WrittenAsRgb(f: RenderFormat) {
    f.R8G8B8A8_UNORM? || f.B8G8R8A8_UNORM? || f.B8G8R8X8_UNORM? || f.R10G10B10A2_UNORM? ||
    f.R16G16_UNORM? || f.B5G5R5A1_UNORM? || f.B5G6R5_UNORM? || f.B4G4R4A4_UNORM?
  }

  lemma RgbRoundTrip(f: RenderFormat)
    requires WrittenAsRgb(f)
    ensures LegacyPixelFormat(f).Some? && GetRenderFormat(LegacyPixelFormat(f).value) == f
    ensures Storable(LegacyPixelFormat(f).value)
  {
  }

  predicate WrittenAsLuminance(f: RenderFormat) {
    f.R8_UNORM? || f.R8G8_UNORM? || f.R16_UNORM? || f.A8_UNORM?
  }

  lemma LuminanceRoundTrip(f: RenderFormat)
    requires WrittenAsLuminance(f)
    ensures LegacyPixelFormat(f).Some? && GetRenderFormat(LegacyPixelFormat(f).value) == f
    ensures Storable(LegacyPixelFormat(f).value)
  {
  }

  predicate WrittenAsBump(f: RenderFormat) {
    f.R8G8_SNORM? || f.R8G8B8A8_SNORM? || f.R16G16_SNORM?
  }

  lemma BumpRoundTrip(f: RenderFormat)
    requires WrittenAsBump(f)
    ensures LegacyPixelFormat(f).Some? && GetRenderFormat(LegacyPixelFormat(f).value) == f
    ensures Storable(LegacyPixelFormat(f).value)
  {
  }

  predicate WrittenAsCompressed(f: RenderFormat) {
    f.BC1_UNORM? || f.BC2_UNORM? || f.BC3_UNORM? || f.BC4_UNORM? || f.BC4_SNORM? || f.BC5_UNORM? || f.BC5_SNORM?
  }

  lemma CompressedRoundTrip(f: RenderFormat)
    requires WrittenAsCompressed(f)
    ensures LegacyPixelFormat(f).Some? && GetRenderFormat(LegacyPixelFormat(f).value) == f
    ensures Storable(LegacyPixelFormat(f).value)
  {
  }

  predicate WrittenAsPacked(f: RenderFormat) {
    f.R8G8_B8G8_UNORM? || f.G8R8_G8B8_UNORM? || f.YUY2?
  }

  lemma PackedRoundTrip(f: RenderFormat)
    requires WrittenAsPacked(f)
    ensures LegacyPixelFormat(f).Some? && GetRenderFormat(LegacyPixelFormat(f).value) == f
    ensures Storable(LegacyPixelFormat(f).value)
  {
  }

  predicate WrittenAsHalfCode(f: RenderFormat) {
    f.R16G16B16A16_UNORM? || f.R16G16B16A16_SNORM?
  }

  lemma HalfCodeRoundTrip(f: RenderFormat)
    requires WrittenAsHalfCode(f)
    ensures LegacyPixelFormat(f).Some? && GetRenderFormat(LegacyPixelFormat(f).value) == f
    ensures Storable(LegacyPixelFormat(f).value)
  {
  }

  predicate WrittenAsHalfFloatCode(f: RenderFormat) {
    f.R16_FLOAT? || f.R16G16_FLOAT? || f.R16G16B16A16_FLOAT?
  }

  lemma HalfFloatCodeRoundTrip(f: RenderFormat)
    requires WrittenAsHalfFloatCode(f)
    ensures LegacyPixelFormat(f).Some? && GetRenderFormat(LegacyPixelFormat(f).value) == f
    ensures Storable(LegacyPixelFormat(f).value)
  {
  }

  predicate WrittenAsFloatCode(f: RenderFormat) {
    f.R32_FLOAT? || f.R32G32_FLOAT? || f.R32G32B32A32_FLOAT?
  }

  lemma FloatCodeRoundTrip(f: RenderFormat)
    requires WrittenAsFloatCode(f)
    ensures LegacyPixelFormat(f).Some? && GetRenderFormat(LegacyPixelFormat(f).value) == f
    ensures Storable(LegacyPixelFormat(f).value)
  {
  }

  /** A written legacy pixel format can be stored in a legacy header and reads back as the format
      it was written for. */
  lemma LegacyRoundTrip(f: RenderFormat)
    requires LegacyPixelFormat(f).Some?
    ensures GetRenderFormat(LegacyPixelFormat(f).value) == f
    ensures Storable(LegacyPixelFormat(f).value)
  {
    if WrittenAsRgb(f) {
      RgbRoundTrip(f);
    } else if WrittenAsLuminance(f) {
      LuminanceRoundTrip(f);
    } else if WrittenAsBump(f) {
      BumpRoundTrip(f);
    } else if WrittenAsCompressed(f) {
      CompressedRoundTrip(f);
    } else if WrittenAsPacked(f) {
      PackedRoundTrip(f);
    } else if WrittenAsHalfCode(f) {
      HalfCodeRoundTrip(f);
    } else if WrittenAsHalfFloatCode(f) {
      HalfFloatCodeRoundTrip(f);
    } else {
      FloatCodeRoundTrip(f);
    }
  }

  /** Every format the table can return, other than UNKNOWN, has a legacy pixel format. */
  lemma LegacyCoversTable(pf: PixelFormat)
    ensures GetRenderFormat(pf) != UNKNOWN ==> LegacyPixelFormat(GetRenderFormat(pf)).Some?
  {
  }

  /** The RGB flag wins over every other flag, and 24-bit RGB has no format. */
  lemma RgbFirst(pf: PixelFormat)
    requires HasFlag(pf.flags, DDS_RGB)
    ensures GetRenderFormat(pf) == RgbFormat(pf)
    ensures pf.rgbBitCount == 24 ==> GetRenderFormat(pf) == UNKNOWN
  {
  }

  /** ALPHA without RGB or LUMINANCE gives A8_UNORM at 8 bits whatever the masks say. */
  lemma AlphaIgnoresMasks(pf: PixelFormat)
    requires !HasFlag(pf.flags, DDS_RGB) && !HasFlag(pf.flags, DDS_LUMINANCE) && HasFlag(pf.flags, DDS_ALPHA)
    ensures GetRenderFormat(pf) == if pf.rgbBitCount == 8 then A8_UNORM else UNKNOWN
  {
  }

  /** With only the FOURCC flag, the code alone decides; the premultiplied DXT2 and DXT4 read as
      BC2 and BC3, and an unlisted code has no format. */
  lemma FourCCTable(pf: PixelFormat)
    requires !HasFlag(pf.flags, DDS_RGB) && !HasFlag(pf.flags, DDS_LUMINANCE)
    requires !HasFlag(pf.flags, DDS_ALPHA) && !HasFlag(pf.flags, DDS_BUMPDUDV)
    requires HasFlag(pf.flags, DDS_FOURCC)
    ensures GetRenderFormat(pf) == FourCCFormat(pf.fourCC)
    ensures pf.fourCC == FOURCC_DXT2 ==> GetRenderFormat(pf) == BC2_UNORM
    ensures pf.fourCC == FOURCC_DXT4 ==> GetRenderFormat(pf) == BC3_UNORM
    ensures pf.fourCC == FOURCC_ATI1 ==> GetRenderFormat(pf) == BC4_UNORM
    ensures pf.fourCC == FOURCC_ATI2 ==> GetRenderFormat(pf) == BC5_UNORM
    ensures pf.fourCC == 0 ==> GetRenderFormat(pf) == UNKNOWN
  {
  }
}
