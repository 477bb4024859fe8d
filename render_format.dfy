// The RenderFormat values that the texture loaders name. Render.h, which
// numbers them, is not part of this model: a format read as a raw code (the
// format field of a DX10 DDS header) is decoded by a caller-supplied function.

module RenderFormats {

  datatype RenderFormat =
    | UNKNOWN
    | R8G8B8A8_UNORM | B8G8R8A8_UNORM | B8G8R8X8_UNORM | R10G10B10A2_UNORM
    | R16G16_UNORM | R32_FLOAT | B5G5R5A1_UNORM | B5G6R5_UNORM | B4G4R4A4_UNORM
    | R8_UNORM | R8G8_UNORM | R16_UNORM | A8_UNORM
    | R8G8_SNORM | R8G8B8A8_SNORM | R16G16_SNORM
    | BC1_UNORM | BC2_UNORM | BC3_UNORM | BC4_UNORM | BC4_SNORM | BC5_UNORM | BC5_SNORM
    | R8G8_B8G8_UNORM | G8R8_G8B8_UNORM | YUY2
    | R16G16B16A16_UNORM | R16G16B16A16_SNORM | R16_FLOAT | R16G16_FLOAT
    | R16G16B16A16_FLOAT | R32G32_FLOAT | R32G32B32A32_FLOAT
    | AI44 | IA44 | P8 | A8P8
    | D32_FLOAT | R16_UINT
    | OtherFormat(code: nat)
}
