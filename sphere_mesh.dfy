// The UV-sphere index and vertex layout shared by MakeSphereMesh
// (BouncyBalls/BouncyBallsMain.cpp:157-267) and CreateSphere (Volumetrics/Volumetrics.cpp:26-105):
// a north pole, `stacks - 1` rings of `slices` vertices, a south pole; a cap of two triangles per
// slice, then one quad of two triangles per slice and band between consecutive rings.

module SphereMesh {

  const U32_MODULUS: int := 0x1_0000_0000

  /** A value reduced to 32 bits, as a u32 expression computes it. */
  function U32(x: int): (r: nat)
    ensures r < U32_MODULUS
    ensures 0 <= x < U32_MODULUS ==> r == x
  {
    x % U32_MODULUS
  }

  /** The index count as the source computes it, in u32 arithmetic: `stacks - 2` wraps when
      there are fewer than two stacks. */
  function IndexCountU32(slices: nat, stacks: nat): (r: nat)
    ensures r < U32_MODULUS
  {
    U32(slices * 6 + slices * U32(stacks - 2) * 6)
  }

  /** The vertex count as the source computes it, in u32 arithmetic. */
  function VertexCountU32(slices: nat, stacks: nat): (r: nat)
    ensures r < U32_MODULUS
  {
    U32(slices * U32(stacks - 1) + 2)
  }

  /** How many indices the two loops write: six per slice in the cap loop, and six per slice
      for each of the `stacks - 2` (again in u32) bands. */
  function IndexWritesAsWritten(slices: nat, stacks: nat): nat {
    slices * 6 + slices * U32(stacks - 2) * 6
  }

  /** `a * b` as repeated addition. The offsets below are written with it so that the proofs
      about them stay in linear arithmetic; TimesIsProduct ties it to `*`. */
  function Times(a: nat, b: nat): nat {
    if b == 0 then 0 else Times(a, b - 1) + a
  }

  lemma {:induction false} TimesIsProduct(a: nat, b: nat)
    ensures Times(a, b) == a * b
  {
    if b > 0 {
      TimesIsProduct(a, b - 1);
      assert a * (b - 1) + a == a * b;
    }
  }

  /** One more row of `a` still fits below `m` rows. */
  lemma {:induction false} TimesStep(a: nat, b: nat, m: nat)
    requires b < m
    ensures Times(a, b) + a <= Times(a, m)
  {
    if b < m - 1 {
      TimesStep(a, b, m - 1);
    }
  }

  /** The counts of a sphere with at least two stacks, in unbounded arithmetic. */
  function SphereIndexCount(slices: nat, stacks: nat): nat
    requires stacks >= 2
  {
    6 * slices + 6 * Times(slices, stacks - 2)
  }

  function SphereVertexCount(slices: nat, stacks: nat): nat
    requires stacks >= 1
  {
    Times(slices, stacks - 1) + 2
  }

  /** The guard as written: the index count, computed in u32, is at most `limit`. */
  predicate GuardAsWritten(slices: nat, stacks: nat, limit: nat) {
    IndexCountU32(slices, stacks) <= limit
  }

  /** The guard as intended: a sphere has at least two stacks, and its index count, computed
      without wrapping, is at most `limit`. */
  predicate SphereFits(slices: nat, stacks: nat, limit: nat) {
    stacks >= 2 && SphereIndexCount(slices, stacks) <= limit
  }

  /** With one stack the index count wraps to zero, so the guard passes, yet the cap loop still
      writes six indices per slice into the empty index buffer. */
  lemma OneStackOverruns(slices: nat)
    requires 1 <= slices < U32_MODULUS
    ensures IndexCountU32(slices, 1) == 0
    ensures GuardAsWritten(slices, 1, 0xfff7)
    ensures IndexWritesAsWritten(slices, 1) > IndexCountU32(slices, 1)
  {
    assert U32(1 - 2) == U32_MODULUS - 1;
    assert slices * 6 + slices * (U32_MODULUS - 1) * 6 == (slices * 6) * U32_MODULUS;
  }

  /** Under the intended guard nothing wraps: both u32 counts are the real ones, the loops write
      exactly as many indices as the buffer holds, and the guard as written passes too. */
  lemma FittingCountsAgree(slices: nat, stacks: nat, limit: nat)
    requires SphereFits(slices, stacks, limit) && limit < U32_MODULUS && stacks < U32_MODULUS
    ensures IndexCountU32(slices, stacks) == SphereIndexCount(slices, stacks)
    ensures IndexWritesAsWritten(slices, stacks) == SphereIndexCount(slices, stacks)
    ensures VertexCountU32(slices, stacks) == SphereVertexCount(slices, stacks)
    ensures GuardAsWritten(slices, stacks, limit)
    ensures SphereIndexCount(slices, stacks) == 6 * (SphereVertexCount(slices, stacks) - 2)
  {
    TimesIsProduct(slices, stacks - 2);
    TimesIsProduct(slices, stacks - 1);
    assert U32(stacks - 2) == stacks - 2 && U32(stacks - 1) == stacks - 1;
  }

  /** A slot of the vertex buffers: a pole, or the vertex of a ring (counted from the north)
      at a slice. */
  datatype SphereVertex = NorthPole | Ring(ring: nat, slice: nat) | SouthPole

  function RingRow(slices: nat, ring: nat): (r: seq<SphereVertex>)
    ensures |r| == slices
  {
    seq(slices, c requires 0 <= c < slices => Ring(ring, c))
  }

  /** The first `n` rings, in order. */
  function Rings(slices: nat, n: nat): (r: seq<SphereVertex>)
    ensures |r| == Times(slices, n)
  {
    if n == 0 then [] else Rings(slices, n - 1) + RingRow(slices, n - 1)
  }

  /** The order in which the vertex loop writes the slots. */
  function Layout(slices: nat, stacks: nat): (r: seq<SphereVertex>)
    requires stacks >= 1
    ensures |r| == SphereVertexCount(slices, stacks)
  {
    [NorthPole] + Rings(slices, stacks - 1) + [SouthPole]
  }

  /** The slice after `i`, going round; `(i + 1) % slices` in the source (see NextSlice). */
  function Next(slices: nat, i: nat): nat {
    if i + 1 < slices then i + 1 else 0
  }

  /** The six indices the cap loop writes for slice `i`: the northern triangle, then the
      southern one. */
  function CapSix(slices: nat, stacks: nat, i: nat): (r: seq<int>)
    requires slices >= 1 && stacks >= 2
    ensures |r| == 6
  {
    var next := Next(slices, i);
    var last := Times(slices, stacks - 2) + 1;
    [next + 1, i + 1, 0, SphereVertexCount(slices, stacks) - 1, i + last, next + last]
  }

  /** The six indices the band loop writes for band `j` and slice `i`. */
  function BandSix(slices: nat, j: nat, i: nat): (r: seq<int>)
    requires slices >= 1
    ensures |r| == 6
  {
    var j0 := Times(slices, j) + 1;
    var j1 := Times(slices, j + 1) + 1;
    var next := Next(slices, i);
    [j0 + i, j0 + next, j1 + next, j1 + next, j1 + i, j0 + i]
  }

  function Caps(slices: nat, stacks: nat, n: nat): (r: seq<int>)
    requires n <= slices && stacks >= 2
    ensures |r| == 6 * n
  {
    if n == 0 then [] else Caps(slices, stacks, n - 1) + CapSix(slices, stacks, n - 1)
  }

  function BandRow(slices: nat, j: nat, n: nat): (r: seq<int>)
    requires n <= slices
    ensures |r| == 6 * n
  {
    if n == 0 then [] else BandRow(slices, j, n - 1) + BandSix(slices, j, n - 1)
  }

  function Bands(slices: nat, m: nat): (r: seq<int>)
    ensures |r| == 6 * Times(slices, m)
  {
    if m == 0 then [] else Bands(slices, m - 1) + BandRow(slices, m - 1, slices)
  }

  /** The index buffer the two loops fill: all caps, then all bands. */
  function SphereIndices(slices: nat, stacks: nat): (r: seq<int>)
    requires stacks >= 2
    ensures |r| == SphereIndexCount(slices, stacks)
  {
    Caps(slices, stacks, slices) + Bands(slices, stacks - 2)
  }

  lemma ConcatRight<T>(a: seq<T>, b: seq<T>, k: nat)
    requires k < |b|
    ensures (a + b)[|a| + k] == b[k]
  {
  }

  // ---- Where each triangle sits in the buffers ----

  lemma {:induction false} RingsAt(slices: nat, n: nat, ring: nat, c: nat)
    requires ring < n && c < slices
    ensures Times(slices, ring) + c < |Rings(slices, n)|
    ensures Rings(slices, n)[Times(slices, ring) + c] == Ring(ring, c)
  {
    TimesStep(slices, ring, n);
    if ring < n - 1 {
      RingsAt(slices, n - 1, ring, c);
      assert Rings(slices, n)[Times(slices, ring) + c] == Rings(slices, n - 1)[Times(slices, ring) + c];
    } else {
      assert Times(slices, ring) == |Rings(slices, n - 1)|;
    }
  }

  /** Slot 0 is the north pole and the last slot the south pole. */
  lemma LayoutPoles(slices: nat, stacks: nat)
    requires stacks >= 1
    ensures Layout(slices, stacks)[0] == NorthPole
    ensures Layout(slices, stacks)[SphereVertexCount(slices, stacks) - 1] == SouthPole
  {
  }

  /** Slot `1 + Times(slices, ring) + c` is ring `ring` at slice `c`. */
  lemma LayoutRing(slices: nat, stacks: nat, ring: nat, c: nat, slot: int)
    requires stacks >= 1 && ring < stacks - 1 && c < slices
    requires slot == 1 + Times(slices, ring) + c
    ensures 0 < slot < SphereVertexCount(slices, stacks) - 1
    ensures Layout(slices, stacks)[slot] == Ring(ring, c)
  {
    RingsAt(slices, stacks - 1, ring, c);
  }

  lemma {:induction false} CapsAt(slices: nat, stacks: nat, n: nat, i: nat, k: nat)
    requires n <= slices && stacks >= 2 && i < n && k < 6
    ensures Caps(slices, stacks, n)[6 * i + k] == CapSix(slices, stacks, i)[k]
  {
    if i < n - 1 {
      CapsAt(slices, stacks, n - 1, i, k);
    }
  }

  lemma {:induction false} BandRowAt(slices: nat, j: nat, n: nat, i: nat, k: nat)
    requires n <= slices && i < n && k < 6
    ensures BandRow(slices, j, n)[6 * i + k] == BandSix(slices, j, i)[k]
  {
    if i < n - 1 {
      BandRowAt(slices, j, n - 1, i, k);
    }
  }

  lemma {:induction false} BandsAt(slices: nat, m: nat, j: nat, i: nat, k: nat)
    requires j < m && i < slices && k < 6
    ensures 6 * Times(slices, j) + 6 * i + k < |Bands(slices, m)|
    ensures Bands(slices, m)[6 * Times(slices, j) + 6 * i + k] == BandSix(slices, j, i)[k]
  {
    TimesStep(slices, j, m);
    if j < m - 1 {
      BandsAt(slices, m - 1, j, i, k);
    } else {
      BandRowAt(slices, j, slices, i, k);
    }
  }

  /** Cap `i` takes slots `6 * i` to `6 * i + 5` of the index buffer. */
  lemma CapPlacement(slices: nat, stacks: nat, i: nat)
    requires stacks >= 2 && i < slices
    ensures 6 * i + 6 <= |SphereIndices(slices, stacks)|
    ensures forall r :: 0 <= r < 6 ==> SphereIndices(slices, stacks)[6 * i + r] == CapSix(slices, stacks, i)[r]
  {
    var idx := SphereIndices(slices, stacks);
    forall k | 0 <= k < 6
      ensures idx[6 * i + k] == CapSix(slices, stacks, i)[k]
    {
      CapsAt(slices, stacks, slices, i, k);
    }
  }

  /** Band `j` at slice `i` takes the six slots from `6 * slices + 6 * Times(slices, j) + 6 * i`. */
  lemma BandPlacement(slices: nat, stacks: nat, j: nat, i: nat)
    requires stacks >= 2 && j < stacks - 2 && i < slices
    ensures 6 * slices + 6 * Times(slices, j) + 6 * i + 6 <= |SphereIndices(slices, stacks)|
    ensures (var b := 6 * slices + 6 * Times(slices, j) + 6 * i;
      forall r :: 0 <= r < 6 ==> SphereIndices(slices, stacks)[b + r] == BandSix(slices, j, i)[r])
  {
    var idx := SphereIndices(slices, stacks);
    var b := 6 * slices + 6 * Times(slices, j) + 6 * i;
    var bands := Bands(slices, stacks - 2);
    assert idx == Caps(slices, stacks, slices) + bands;
    forall k | 0 <= k < 6
      ensures b + k < |idx| && idx[b + k] == BandSix(slices, j, i)[k]
    {
      BandsAt(slices, stacks - 2, j, i, k);
      ConcatRight(Caps(slices, stacks, slices), bands, 6 * Times(slices, j) + 6 * i + k);
    }
    TimesStep(slices, j, stacks - 2);
  }

  /** The northern triangle of cap `i` joins ring 0 at the next slice, ring 0 at slice `i` and
      the north pole; the southern one the south pole and the last ring at slice `i` and at
      the next slice. */
  lemma CapSixMeaning(slices: nat, stacks: nat, i: nat)
    requires stacks >= 2 && i < slices
    ensures (var six, v, next := CapSix(slices, stacks, i), Layout(slices, stacks), Next(slices, i);
      (forall k :: 0 <= k < 6 ==> 0 <= six[k] < |v|) &&
      v[six[0]] == Ring(0, next) && v[six[1]] == Ring(0, i) && v[six[2]] == NorthPole &&
      v[six[3]] == SouthPole && v[six[4]] == Ring(stacks - 2, i) && v[six[5]] == Ring(stacks - 2, next))
  {
    var six, next := CapSix(slices, stacks, i), Next(slices, i);
    LayoutPoles(slices, stacks);
    LayoutRing(slices, stacks, 0, next, six[0]);
    LayoutRing(slices, stacks, 0, i, six[1]);
    LayoutRing(slices, stacks, stacks - 2, i, six[4]);
    LayoutRing(slices, stacks, stacks - 2, next, six[5]);
  }

  /** The six indices of band `j` at slice `i` are the quad between ring `j` and ring `j + 1`
      from slice `i` to the next one, as the triangles (a, b, c) and (c, d, a). */
  lemma BandSixMeaning(slices: nat, stacks: nat, j: nat, i: nat)
    requires stacks >= 2 && j < stacks - 2 && i < slices
    ensures (var six, v, next := BandSix(slices, j, i), Layout(slices, stacks), Next(slices, i);
      (forall k :: 0 <= k < 6 ==> 0 <= six[k] < |v|) &&
      v[six[0]] == Ring(j, i) && v[six[1]] == Ring(j, next) && v[six[2]] == Ring(j + 1, next) &&
      v[six[3]] == Ring(j + 1, next) && v[six[4]] == Ring(j + 1, i) && v[six[5]] == Ring(j, i))
  {
    var six, next := BandSix(slices, j, i), Next(slices, i);
    LayoutRing(slices, stacks, j, i, six[0]);
    LayoutRing(slices, stacks, j, next, six[1]);
    LayoutRing(slices, stacks, j + 1, next, six[2]);
    LayoutRing(slices, stacks, j + 1, i, six[4]);
  }

  /** The slice after `i`, going round. */
  lemma NextSlice(slices: nat, i: nat)
    requires i < slices
    ensures (i + 1) % slices == Next(slices, i)
  {
  }

  lemma CapSixInRange(slices: nat, stacks: nat, i: nat)
    requires stacks >= 2 && i < slices
    ensures forall k :: 0 <= k < 6 ==> 0 <= CapSix(slices, stacks, i)[k] < SphereVertexCount(slices, stacks)
  {
    TimesStep(slices, stacks - 2, stacks - 1);
  }

  lemma {:induction false} CapsInRange(slices: nat, stacks: nat, n: nat)
    requires n <= slices && stacks >= 2
    ensures forall k :: 0 <= k < |Caps(slices, stacks, n)| ==>
      0 <= Caps(slices, stacks, n)[k] < SphereVertexCount(slices, stacks)
  {
    if n > 0 {
      CapsInRange(slices, stacks, n - 1);
      CapSixInRange(slices, stacks, n - 1);
    }
  }

  lemma BandSixInRange(slices: nat, stacks: nat, j: nat, i: nat)
    requires stacks >= 2 && j < stacks - 2 && i < slices
    ensures forall k :: 0 <= k < 6 ==> 0 <= BandSix(slices, j, i)[k] < SphereVertexCount(slices, stacks)
  {
    TimesStep(slices, j + 1, stacks - 1);
  }

  lemma {:induction false} BandRowInRange(slices: nat, j: nat, n: nat, stacks: nat)
    requires n <= slices && stacks >= 2 && j < stacks - 2
    ensures forall k :: 0 <= k < |BandRow(slices, j, n)| ==>
      0 <= BandRow(slices, j, n)[k] < SphereVertexCount(slices, stacks)
  {
    if n > 0 {
      BandRowInRange(slices, j, n - 1, stacks);
      BandSixInRange(slices, stacks, j, n - 1);
    }
  }

  lemma {:induction false} BandsInRange(slices: nat, m: nat, stacks: nat)
    requires stacks >= 2 && m <= stacks - 2
    ensures forall k :: 0 <= k < |Bands(slices, m)| ==>
      0 <= Bands(slices, m)[k] < SphereVertexCount(slices, stacks)
  {
    if m > 0 {
      BandsInRange(slices, m - 1, stacks);
      BandRowInRange(slices, m - 1, slices, stacks);
    }
  }

  /** Every index names a vertex slot, and none needs more than 16 bits when the sphere fits a
      16-bit index buffer, so the u16 stores never truncate. */
  lemma IndicesInRange(slices: nat, stacks: nat, limit: nat)
    requires SphereFits(slices, stacks, limit) && limit <= 0xffff && stacks < U32_MODULUS
    ensures forall k :: 0 <= k < |SphereIndices(slices, stacks)| ==>
      0 <= SphereIndices(slices, stacks)[k] < SphereVertexCount(slices, stacks)
    ensures SphereVertexCount(slices, stacks) <= 0x1_0000
  {
    CapsInRange(slices, stacks, slices);
    BandsInRange(slices, stacks - 2, stacks);
    FittingCountsAgree(slices, stacks, limit);
  }

  // ---- The loops ----

  /** The vertex loop: the north pole, then ring by ring each slice, then the south pole. */
  method SphereVertexSlots(slices: nat, stacks: nat) returns (verts: seq<SphereVertex>)
    requires stacks >= 1
    ensures verts == Layout(slices, stacks)
    ensures |verts| == SphereVertexCount(slices, stacks)
  {
    ghost var layout := Layout(slices, stacks);
    var vertexCount := slices * (stacks - 1) + 2;
    TimesIsProduct(slices, stacks - 1);
    var a := new SphereVertex[vertexCount](_ => NorthPole);
    LayoutPoles(slices, stacks);
    a[0] := NorthPole;
    var p := 1;
    var i := 0;
    while i < stacks - 1
      invariant i <= stacks - 1
      invariant p == 1 + Times(slices, i) <= vertexCount - 1
      invariant forall k :: 0 <= k < p ==> a[k] == layout[k]
    {
      TimesStep(slices, i, stacks - 1);
      var j := 0;
      while j < slices
        invariant j <= slices
        invariant p == 1 + Times(slices, i) + j
        invariant forall k :: 0 <= k < p ==> a[k] == layout[k]
      {
        LayoutRing(slices, stacks, i, j, p);
        a[p] := Ring(i, j);
        p := p + 1;
        j := j + 1;
      }
      i := i + 1;
    }
    a[p] := SouthPole;
    assert a[..] == layout;
    verts := a[..];
  }

  /** The cap loop then the band loop, writing through one cursor into an index buffer sized
      to the intended count. */
  method SphereIndexBuffer(slices: nat, stacks: nat) returns (indices: seq<int>)
    requires stacks >= 2
    ensures indices == SphereIndices(slices, stacks)
  {
    var indexCount := slices * 6 + slices * (stacks - 2) * 6;
    var vertexCount := slices * (stacks - 1) + 2;
    TimesIsProduct(slices, stacks - 2);
    TimesIsProduct(slices, stacks - 1);
    var a := new int[indexCount];
    var p := WriteCaps(a, slices, stacks, vertexCount);
    p := WriteBands(a, slices, stacks, p);
    assert a[..] == SphereIndices(slices, stacks);
    indices := a[..];
  }

  /** The cap loop: six indices per slice from the start of the buffer. */
  method WriteCaps(a: array<int>, slices: nat, stacks: nat, vertexCount: nat) returns (p: nat)
    requires stacks >= 2 && a.Length == SphereIndexCount(slices, stacks)
    requires vertexCount == SphereVertexCount(slices, stacks)
    modifies a
    ensures p == 6 * slices
    ensures forall k :: 0 <= k < p ==> a[k] == Caps(slices, stacks, slices)[k]
  {
    TimesIsProduct(slices, stacks - 2);
    var last := slices * (stacks - 2) + 1;
    ghost var caps: seq<int> := [];
    p := 0;
    var i := 0;
    while i < slices
      invariant i <= slices && p == 6 * i
      invariant caps == Caps(slices, stacks, i) && p == |caps|
      invariant forall k :: 0 <= k < p ==> a[k] == caps[k]
    {
      var next := (i + 1) % slices;
      NextSlice(slices, i);
      assert p + 6 <= 6 * slices <= a.Length;
      Put6(a, p, next + 1, i + 1, 0, vertexCount - 1, i + last, next + last);
      caps := caps + CapSix(slices, stacks, i);
      p := p + 6;
      i := i + 1;
    }
  }

  /** Six consecutive stores into the index buffer. */
  method Put6(a: array<int>, p: nat, v0: int, v1: int, v2: int, v3: int, v4: int, v5: int)
    requires p + 6 <= a.Length
    modifies a
    ensures forall k :: 0 <= k < p ==> a[k] == old(a[k])
    ensures a[p] == v0 && a[p + 1] == v1 && a[p + 2] == v2
    ensures a[p + 3] == v3 && a[p + 4] == v4 && a[p + 5] == v5
  {
    a[p] := v0;
    a[p + 1] := v1;
    a[p + 2] := v2;
    a[p + 3] := v3;
    a[p + 4] := v4;
    a[p + 5] := v5;
  }

  /** The band loop: for each band, six indices per slice after the caps. */
  method WriteBands(a: array<int>, slices: nat, stacks: nat, start: nat) returns (p: nat)
    requires stacks >= 2 && a.Length == SphereIndexCount(slices, stacks) && start == 6 * slices
    requires forall k :: 0 <= k < start ==> a[k] == Caps(slices, stacks, slices)[k]
    modifies a
    ensures p == a.Length
    ensures forall k :: 0 <= k < p ==> a[k] == SphereIndices(slices, stacks)[k]
  {
    ghost var done := Caps(slices, stacks, slices);
    p := start;
    var j := 0;
    while j < stacks - 2
      invariant j <= stacks - 2
      invariant done == Caps(slices, stacks, slices) + Bands(slices, j)
      invariant p == |done| <= a.Length
      invariant forall k :: 0 <= k < p ==> a[k] == done[k]
    {
      TimesStep(slices, j, stacks - 2);
      var j0 := j * slices + 1;
      var j1 := (j + 1) * slices + 1;
      TimesIsProduct(slices, j);
      TimesIsProduct(slices, j + 1);
      p := WriteBandRow(a, slices, j, j0, j1, done, p);
      assert done + BandRow(slices, j, slices) == Caps(slices, stacks, slices) + Bands(slices, j + 1);
      done := done + BandRow(slices, j, slices);
      j := j + 1;
    }
  }

  /** One pass of the inner band loop: the quads between ring `j` (from slot `j0`) and ring
      `j + 1` (from slot `j1`), written after the indices already in `done`. */
  method WriteBandRow(a: array<int>, slices: nat, j: nat, j0: int, j1: int, ghost done: seq<int>, start: nat)
    returns (p: nat)
    requires j0 == Times(slices, j) + 1 && j1 == Times(slices, j + 1) + 1
    requires start == |done| && start + 6 * slices <= a.Length
    requires forall k :: 0 <= k < start ==> a[k] == done[k]
    modifies a
    ensures p == start + 6 * slices
    ensures forall k :: 0 <= k < p ==> a[k] == (done + BandRow(slices, j, slices))[k]
  {
    ghost var row: seq<int> := [];
    p := start;
    var c := 0;
    while c < slices
      invariant c <= slices
      invariant row == BandRow(slices, j, c)
      invariant p == start + |row|
      invariant forall k :: 0 <= k < p ==> a[k] == (done + row)[k]
    {
      var next := (c + 1) % slices;
      NextSlice(slices, c);
      var i0 := j0 + c;
      var i1 := j0 + next;
      var i2 := j1 + next;
      var i3 := j1 + c;
      assert p + 6 <= start + 6 * slices;
      Put6(a, p, i0, i1, i2, i2, i3, i0);
      row := row + BandSix(slices, j, c);
      p := p + 6;
      c := c + 1;
    }
  }
}
