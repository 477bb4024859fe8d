// Little-endian 32-bit words of a DDS file (Utils/DDSTextureLoader.cpp:13-25):
// the file is read through `uint32_t` fields of packed structures, and FourCC
// codes pack four characters into one such word.

module DdsBytes {

  type Byte = x: int | 0 <= x < 0x100
  type U32 = x: int | 0 <= x < 0x1_0000_0000

  const UINT32_MAX: nat := 0xFFFF_FFFF

  /** The word stored at `off`, least significant byte first. */
  function ReadU32(data: seq<Byte>, off: nat): U32
    requires off + 4 <= |data|
  {
    var b0: int, b1: int, b2: int, b3: int := data[off], data[off + 1], data[off + 2], data[off + 3];
    b0 + 0x100 * b1 + 0x1_0000 * b2 + 0x100_0000 * b3
  }

  /** Byte `t` (0 least significant) of a word. */
  function ByteOf(v: U32, t: nat): Byte
    requires t < 4
  {
    if t == 0 then v % 0x100
    else if t == 1 then (v / 0x100) % 0x100
    else if t == 2 then (v / 0x1_0000) % 0x100
    else v / 0x100_0000
  }

  /** The bytes of consecutive words, as a packed structure lays them out. */
  function EncodeWords(ws: seq<U32>): (bs: seq<Byte>)
    ensures |bs| == 4 * |ws|
  {
    seq(4 * |ws|, i requires 0 <= i < 4 * |ws| => ByteOf(ws[i / 4], i % 4))
  }

  /** `n` consecutive words starting at `off`. */
  function ReadWords(data: seq<Byte>, off: nat, n: nat): (ws: seq<U32>)
    requires off + 4 * n <= |data|
    ensures |ws| == n
  {
    seq(n, k requires 0 <= k < n => ReadU32(data, off + 4 * k))
  }

  /** A word is the sum of its four bytes at their weights. */
  lemma BytesOfWord(v: U32)
    ensures ByteOf(v, 0) + 0x100 * ByteOf(v, 1) + 0x1_0000 * ByteOf(v, 2) + 0x100_0000 * ByteOf(v, 3) == v
  {
    var q1 := v / 0x100;
    var q2 := q1 / 0x100;
    var q3 := q2 / 0x100;
    assert v == v % 0x100 + 0x100 * q1;
    assert q1 == q1 % 0x100 + 0x100 * q2;
    assert q2 == q2 % 0x100 + 0x100 * q3;
    assert v / 0x1_0000 == q2;
    assert v / 0x100_0000 == q3;
  }

  /** Reading a word back from its bytes gives the word. */
  lemma ReadEncoded(ws: seq<U32>, pre: seq<Byte>, post: seq<Byte>, k: nat)
    requires k < |ws|
    ensures ReadU32(pre + EncodeWords(ws) + post, |pre| + 4 * k) == ws[k]
  {
    var data := pre + EncodeWords(ws) + post;
    var e := EncodeWords(ws);
    forall t | 0 <= t < 4 ensures data[|pre| + 4 * k + t] == ByteOf(ws[k], t) {
      assert data[|pre| + 4 * k + t] == e[4 * k + t];
      assert (4 * k + t) / 4 == k && (4 * k + t) % 4 == t;
    }
    BytesOfWord(ws[k]);
  }

  /** Any run of words encoded into a file, possibly after a prefix and before a payload, reads
      back unchanged. */
  lemma ReadWordsEncoded(ws: seq<U32>, pre: seq<Byte>, post: seq<Byte>, k: nat, n: nat)
    requires k + n <= |ws|
    ensures |pre| + 4 * (k + n) <= |pre + EncodeWords(ws) + post|
    ensures ReadWords(pre + EncodeWords(ws) + post, |pre| + 4 * k, n) == ws[k..k + n]
  {
    var data := pre + EncodeWords(ws) + post;
    var rs := ReadWords(data, |pre| + 4 * k, n);
    forall m | 0 <= m < n ensures rs[m] == ws[k + m] {
      ReadEncoded(ws, pre, post, k + m);
      assert |pre| + 4 * k + 4 * m == |pre| + 4 * (k + m);
    }
  }

  /** The `(uint8_t)` cast of a character. */
  function CharByte(c: char): Byte {
    (c as int) % 0x100
  }

  /** MAKEFOURCC: the low byte of each character at bit 0, 8, 16 and 24.  The four bytes do not
      overlap, so OR-ing the shifted bytes is adding them at their weights. */
  function MakeFourCC(c0: char, c1: char, c2: char, c3: char): U32 {
    var b0: int, b1: int, b2: int, b3: int := CharByte(c0), CharByte(c1), CharByte(c2), CharByte(c3);
    b0 + 0x100 * b1 + 0x1_0000 * b2 + 0x100_0000 * b3
  }

  /** A FourCC code is the word a file holds when the four characters are stored in order. */
  lemma FourCCIsStoredWord(c0: char, c1: char, c2: char, c3: char)
    ensures ReadU32([CharByte(c0), CharByte(c1), CharByte(c2), CharByte(c3)], 0) == MakeFourCC(c0, c1, c2, c3)
    ensures ByteOf(MakeFourCC(c0, c1, c2, c3), 0) == CharByte(c0)
    ensures ByteOf(MakeFourCC(c0, c1, c2, c3), 1) == CharByte(c1)
    ensures ByteOf(MakeFourCC(c0, c1, c2, c3), 2) == CharByte(c2)
    ensures ByteOf(MakeFourCC(c0, c1, c2, c3), 3) == CharByte(c3)
  {
    var b0: int, b1: int, b2: int, b3: int := CharByte(c0), CharByte(c1), CharByte(c2), CharByte(c3);
    var v := MakeFourCC(c0, c1, c2, c3);
    assert v == b0 + 0x100 * (b1 + 0x100 * (b2 + 0x100 * b3));
    assert v / 0x100 == b1 + 0x100 * (b2 + 0x100 * b3);
    assert v / 0x1_0000 == b2 + 0x100 * b3;
    assert v / 0x100_0000 == b3;
  }

  /** "DDS " */
  const DDS_MAGIC: U32 := 0x2053_4444

  lemma MagicIsFourCC()
    ensures DDS_MAGIC == MakeFourCC('D', 'D', 'S', ' ')
  {
  }

  /** `(x & flag) != 0` for a flag of a single bit: the bit of `x` at the flag's position.  Every
      flag the loader tests is a power of two; a test of several bits at once is written as a
      conjunction of single-bit tests. */
  predicate HasFlag(x: U32, flag: U32) {
    flag > 0 && (x / flag) % 2 == 1
  }
}
