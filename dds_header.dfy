// The DDS file header and the checks LoadTextureDataFromFile makes before
// handing the header and the pixel payload on (Utils/DDSTextureLoader.cpp:74-101, 443-489).

module DdsHeaders {

  import opened Wrappers
  import opened DdsBytes
  import opened DdsPixelFormat

  /** DDS_HEADER: 31 words, with the pixel format in words 18 to 25. */
  datatype DdsHeader = DdsHeader(size: U32, flags: U32, height: U32, width: U32, pitchOrLinearSize: U32,
                                 depth: U32, mipMapCount: U32, reserved1: seq<U32>, ddspf: PixelFormat,
                                 caps: U32, caps2: U32, caps3: U32, caps4: U32, reserved2: U32)

  /** DDS_HEADER_DXT10: 5 words; `format` holds the engine's own format number. */
  datatype Dx10Header = Dx10Header(format: U32, resourceDimension: U32, miscFlag: U32, arraySize: U32,
                                   miscFlags2: U32)

  const HEADER_WORDS: nat := 31
  const DX10_WORDS: nat := 5
  /** sizeof(DDS_HEADER) and sizeof(DDS_PIXELFORMAT), the values the size fields must hold. */
  const HEADER_SIZE: nat := 124
  const PIXELFORMAT_SIZE: nat := 32
  /** The magic word and the header; with the DX10 extension, 20 bytes more. */
  const PLAIN_OFFSET: nat := 128
  const DX10_OFFSET: nat := 148

  predicate WellFormed(h: DdsHeader) {
    |h.reserved1| == 11
  }

  function HeaderOfWords(ws: seq<U32>): DdsHeader
    requires |ws| == HEADER_WORDS
  {
    DdsHeader(ws[0], ws[1], ws[2], ws[3], ws[4], ws[5], ws[6], ws[7..18],
              PixelFormat(ws[18], ws[19], ws[20], ws[21], ws[22], ws[23], ws[24], ws[25]),
              ws[26], ws[27], ws[28], ws[29], ws[30])
  }

  function WordsOfHeader(h: DdsHeader): (ws: seq<U32>)
    requires WellFormed(h)
    ensures |ws| == HEADER_WORDS
  {
    [h.size, h.flags, h.height, h.width, h.pitchOrLinearSize, h.depth, h.mipMapCount] + h.reserved1 +
    [h.ddspf.size, h.ddspf.flags, h.ddspf.fourCC, h.ddspf.rgbBitCount,
     h.ddspf.rBitMask, h.ddspf.gBitMask, h.ddspf.bBitMask, h.ddspf.aBitMask,
     h.caps, h.caps2, h.caps3, h.caps4, h.reserved2]
  }

  /** Reading a header's words back gives the header, and every 31 words are some header's. */
  lemma HeaderWordsRoundTrip(h: DdsHeader, ws: seq<U32>)
    requires WellFormed(h) && |ws| == HEADER_WORDS
    ensures HeaderOfWords(WordsOfHeader(h)) == h
    ensures WellFormed(HeaderOfWords(ws)) && WordsOfHeader(HeaderOfWords(ws)) == ws
  {
    assert WordsOfHeader(h)[7..18] == h.reserved1;
    assert WordsOfHeader(HeaderOfWords(ws)) == ws;
  }

  function Dx10OfWords(ws: seq<U32>): Dx10Header
    requires |ws| == DX10_WORDS
  {
    Dx10Header(ws[0], ws[1], ws[2], ws[3], ws[4])
  }

  function WordsOfDx10(e: Dx10Header): (ws: seq<U32>)
    ensures |ws| == DX10_WORDS
  {
    [e.format, e.resourceDimension, e.miscFlag, e.arraySize, e.miscFlags2]
  }

  /** A header announces the DX10 extension by the FOURCC flag and the code "DX10". */
  predicate HasDx10(h: DdsHeader) {
    HasFlag(h.ddspf.flags, DDS_FOURCC) && h.ddspf.fourCC == FOURCC_DX10
  }

  /** What a successful load hands on: the header, the extension when there is one, and where the
      pixel payload starts and how long it is. */
  datatype LoadedDds = LoadedDds(header: DdsHeader, dx10: Option<Dx10Header>, offset: nat, bitSize: nat)

  datatype LoadError = FileTooShort | BadMagic | BadHeaderSize | TooShortForDx10

  /** LoadTextureDataFromFile applied to the bytes of a file. */
  function LoadTextureData(file: seq<Byte>): Result<LoadedDds, LoadError> {
    if |file| < PLAIN_OFFSET then Failure(FileTooShort)
    else if ReadU32(file, 0) != DDS_MAGIC then Failure(BadMagic)
    else
      var h := HeaderOfWords(ReadWords(file, 4, HEADER_WORDS));
      if h.size != HEADER_SIZE || h.ddspf.size != PIXELFORMAT_SIZE then Failure(BadHeaderSize)
      else if HasDx10(h) then
        if |file| < DX10_OFFSET then Failure(TooShortForDx10)
        else Success(LoadedDds(h, Some(Dx10OfWords(ReadWords(file, PLAIN_OFFSET, DX10_WORDS))),
                               DX10_OFFSET, |file| - DX10_OFFSET))
      else Success(LoadedDds(h, None, PLAIN_OFFSET, |file| - PLAIN_OFFSET))
  }

  /** What a load accepts: the header sizes hold, the extension is there exactly when the header
      announces it, and the payload is the rest of the file after the magic word and the headers. */
  lemma LoadedShape(file: seq<Byte>)
    requires LoadTextureData(file).Success?
    ensures var l := LoadTextureData(file).value;
      WellFormed(l.header) && l.header.size == HEADER_SIZE && l.header.ddspf.size == PIXELFORMAT_SIZE &&
      (l.dx10.Some? <==> HasDx10(l.header)) &&
      l.offset == (if l.dx10.Some? then DX10_OFFSET else PLAIN_OFFSET) &&
      l.offset + l.bitSize == |file| &&
      ReadU32(file, 0) == DDS_MAGIC &&
      file[4..PLAIN_OFFSET] == EncodeWords(WordsOfHeader(l.header))
  {
    var l := LoadTextureData(file).value;
    var ws := ReadWords(file, 4, HEADER_WORDS);
    HeaderWordsRoundTrip(l.header, ws);
    EncodedWords(file, 4, HEADER_WORDS);
  }

  /** The bytes of `n` words read at `off` re-encode to the same bytes. */
  lemma EncodedWords(data: seq<Byte>, off: nat, n: nat)
    requires off + 4 * n <= |data|
    ensures EncodeWords(ReadWords(data, off, n)) == data[off..off + 4 * n]
  {
    var e := EncodeWords(ReadWords(data, off, n));
    forall i | 0 <= i < 4 * n ensures e[i] == data[off + i] {
      var k, t := i / 4, i % 4;
      assert i == 4 * k + t;
      ByteOfRead(data, off + 4 * k, t);
    }
  }

  lemma ByteOfRead(data: seq<Byte>, off: nat, t: nat)
    requires off + 4 <= |data| && t < 4
    ensures ByteOf(ReadU32(data, off), t) == data[off + t]
  {
    var b0: int, b1: int, b2: int, b3: int := data[off], data[off + 1], data[off + 2], data[off + 3];
    var v := ReadU32(data, off);
    assert v == b0 + 0x100 * (b1 + 0x100 * (b2 + 0x100 * b3));
    assert v / 0x100 == b1 + 0x100 * (b2 + 0x100 * b3);
    assert v / 0x1_0000 == b2 + 0x100 * b3;
    assert v / 0x100_0000 == b3;
  }

  /** The rejections, in the order the loader makes them. */
  lemma LoadRejects(file: seq<Byte>)
    ensures |file| < PLAIN_OFFSET ==> LoadTextureData(file) == Failure(FileTooShort)
    ensures |file| >= PLAIN_OFFSET && ReadU32(file, 0) != DDS_MAGIC ==> LoadTextureData(file) == Failure(BadMagic)
    ensures (|file| >= PLAIN_OFFSET && ReadU32(file, 0) == DDS_MAGIC && ReadU32(file, 4) != HEADER_SIZE) ==>
            LoadTextureData(file) == Failure(BadHeaderSize)
    ensures (PLAIN_OFFSET <= |file| < DX10_OFFSET && LoadTextureData(file).Success?) ==>
            LoadTextureData(file).value.dx10.None?
  {
  }

  /** The file a writer produces: the magic word, the header, the extension when the header
      announces one, then the payload. */
  function DdsFile(h: DdsHeader, dx10: Option<Dx10Header>, payload: seq<Byte>): seq<Byte>
    requires WellFormed(h)
  {
    EncodeWords([DDS_MAGIC] + WordsOfHeader(h) + (if dx10.Some? then WordsOfDx10(dx10.value) else [])) + payload
  }

  /** The words of a written file read back at their places. */
  lemma WrittenWords(ws: seq<U32>, payload: seq<Byte>, h: DdsHeader, dx10: Option<Dx10Header>)
    requires WellFormed(h) && |ws| >= 1 + HEADER_WORDS
    requires ws[0] == DDS_MAGIC && ws[1..1 + HEADER_WORDS] == WordsOfHeader(h)
    requires dx10.Some? ==> |ws| == 1 + HEADER_WORDS + DX10_WORDS && ws[1 + HEADER_WORDS..] == WordsOfDx10(dx10.value)
    requires dx10.None? ==> |ws| == 1 + HEADER_WORDS
    ensures var file := EncodeWords(ws) + payload;
      |file| >= PLAIN_OFFSET && ReadU32(file, 0) == DDS_MAGIC &&
      HeaderOfWords(ReadWords(file, 4, HEADER_WORDS)) == h &&
      file[4 * |ws|..] == payload &&
      (dx10.Some? ==> |file| >= DX10_OFFSET && Dx10OfWords(ReadWords(file, PLAIN_OFFSET, DX10_WORDS)) == dx10.value)
  {
    WrittenHeader(ws, payload, h);
    if dx10.Some? {
      WrittenExtension(ws, payload, dx10.value);
    }
  }

  lemma WrittenHeader(ws: seq<U32>, payload: seq<Byte>, h: DdsHeader)
    requires WellFormed(h) && |ws| >= 1 + HEADER_WORDS
    requires ws[0] == DDS_MAGIC && ws[1..1 + HEADER_WORDS] == WordsOfHeader(h)
    ensures |EncodeWords(ws) + payload| >= PLAIN_OFFSET
    ensures ReadU32(EncodeWords(ws) + payload, 0) == DDS_MAGIC
    ensures HeaderOfWords(ReadWords(EncodeWords(ws) + payload, 4, HEADER_WORDS)) == h
  {
    WrittenMagic(ws, payload);
    WrittenHeaderWords(ws, payload);
    HeaderWordsRoundTrip(h, WordsOfHeader(h));
  }

  lemma WrittenMagic(ws: seq<U32>, payload: seq<Byte>)
    requires |ws| >= 1
    ensures ReadU32(EncodeWords(ws) + payload, 0) == ws[0]
  {
    assert EncodeWords(ws) + payload == [] + EncodeWords(ws) + payload;
    ReadEncoded(ws, [], payload, 0);
  }

  lemma WrittenHeaderWords(ws: seq<U32>, payload: seq<Byte>)
    requires |ws| >= 1 + HEADER_WORDS
    ensures |EncodeWords(ws) + payload| >= PLAIN_OFFSET
    ensures ReadWords(EncodeWords(ws) + payload, 4, HEADER_WORDS) == ws[1..1 + HEADER_WORDS]
  {
    assert EncodeWords(ws) + payload == [] + EncodeWords(ws) + payload;
    ReadWordsEncoded(ws, [], payload, 1, HEADER_WORDS);
  }

  lemma WrittenExtension(ws: seq<U32>, payload: seq<Byte>, e: Dx10Header)
    requires |ws| == 1 + HEADER_WORDS + DX10_WORDS && ws[1 + HEADER_WORDS..] == WordsOfDx10(e)
    ensures |EncodeWords(ws) + payload| >= DX10_OFFSET
    ensures Dx10OfWords(ReadWords(EncodeWords(ws) + payload, PLAIN_OFFSET, DX10_WORDS)) == e
  {
    var file := EncodeWords(ws) + payload;
    assert file == [] + EncodeWords(ws) + payload;
    ReadWordsEncoded(ws, [], payload, 1 + HEADER_WORDS, DX10_WORDS);
    var es := ReadWords(file, PLAIN_OFFSET, DX10_WORDS);
    assert es == ws[1 + HEADER_WORDS..];
  }

  /** A well-formed file loads back as the header, extension and payload it was written from. */
  lemma LoadWritten(h: DdsHeader, dx10: Option<Dx10Header>, payload: seq<Byte>)
    requires WellFormed(h) && h.size == HEADER_SIZE && h.ddspf.size == PIXELFORMAT_SIZE
    requires dx10.Some? <==> HasDx10(h)
    ensures var file := DdsFile(h, dx10, payload);
      var off := if dx10.Some? then DX10_OFFSET else PLAIN_OFFSET;
      LoadTextureData(file) == Success(LoadedDds(h, dx10, off, |payload|)) && file[off..] == payload
  {
    var tail: seq<U32> := if dx10.Some? then WordsOfDx10(dx10.value) else [];
    var ws := [DDS_MAGIC] + WordsOfHeader(h) + tail;
    assert ws[1..1 + HEADER_WORDS] == WordsOfHeader(h);
    assert ws[1 + HEADER_WORDS..] == tail;
    WrittenWords(ws, payload, h, dx10);
  }
}
