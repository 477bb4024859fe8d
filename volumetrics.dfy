// The two meshes of the volumetrics demo: CreateSphere (Volumetrics/Volumetrics.cpp:26-105),
// the light sphere, with the index generation shared with the bouncing balls; and CreateVolume
// (Volumetrics/Volumetrics.cpp:107-148), the unit cube the volume is ray-marched in.

module Volumetrics {

  import opened SphereMesh

  const USHORT_MAX: nat := 0xffff

  /** A mesh: its vertex buffer, its index buffer, and the index count it is drawn with. */
  datatype Mesh<V> = Mesh(vertices: seq<V>, indices: seq<int>, numIndices: nat)

  /** The light sphere: positions only, and the same rings and triangles as the bouncing balls'
      sphere. The guard here is `indexCount < USHORT_MAX`. */
  method CreateSphere(slices: nat, stacks: nat) returns (mesh: Mesh<SphereVertex>)
    requires slices < U32_MODULUS && stacks < U32_MODULUS
    requires SphereFits(slices, stacks, USHORT_MAX - 1)
    ensures mesh.vertices == Layout(slices, stacks)
    ensures mesh.indices == SphereIndices(slices, stacks)
    ensures mesh.numIndices == |mesh.indices| == IndexCountU32(slices, stacks)
    ensures |mesh.vertices| == VertexCountU32(slices, stacks)
    ensures forall k :: 0 <= k < |mesh.indices| ==> 0 <= mesh.indices[k] < |mesh.vertices|
  {
    var indexCount := IndexCountU32(slices, stacks);
    FittingCountsAgree(slices, stacks, USHORT_MAX - 1);
    assert indexCount < USHORT_MAX;
    var verts := SphereVertexSlots(slices, stacks);
    var indices := SphereIndexBuffer(slices, stacks);
    IndicesInRange(slices, stacks, USHORT_MAX - 1);
    mesh := Mesh(verts, indices, |indices|);
  }

  // ---- The cube ----

  datatype Point = Point(x: real, y: real, z: real)

  // The corners: front or back (z = 0.5 or -0.5), top or bottom (y), left or right (x).
  const FTL: Point := Point(-0.5, 0.5, 0.5)
  const FTR: Point := Point(0.5, 0.5, 0.5)
  const FBR: Point := Point(0.5, -0.5, 0.5)
  const FBL: Point := Point(-0.5, -0.5, 0.5)
  const BTL: Point := Point(-0.5, 0.5, -0.5)
  const BTR: Point := Point(0.5, 0.5, -0.5)
  const BBR: Point := Point(0.5, -0.5, -0.5)
  const BBL: Point := Point(-0.5, -0.5, -0.5)

  /** Four vertices per face, one row per face: front, back, right, left, bottom, top. */
  const POS_VERTS: seq<Point> :=
    [FTL, FTR, FBR, FBL] +
    [BTR, BTL, BBL, BBR] +
    [FTR, BTR, BBR, FBR] +
    [BTL, FTL, FBL, BBL] +
    [FBL, FBR, BBR, BBL] +
    [FTL, BTL, BTR, FTR]

  /** Six indices per face, one row per face. */
  const INDICES: seq<int> :=
    [2, 1, 0, 0, 3, 2] +
    [6, 5, 4, 4, 7, 6] +
    [10, 9, 8, 8, 11, 10] +
    [14, 13, 12, 12, 15, 14] +
    [18, 17, 16, 16, 19, 18] +
    [22, 21, 20, 20, 23, 22]

  /** The cube, drawn with all of its indices, each of which names one of its 24 vertices. */
  function CreateVolume(): (mesh: Mesh<Point>)
    ensures |mesh.vertices| == 24 && mesh.numIndices == |mesh.indices| == 36
    ensures forall k :: 0 <= k < |mesh.indices| ==> 0 <= mesh.indices[k] < |mesh.vertices|
  {
    Mesh(POS_VERTS, INDICES, |INDICES|)
  }

  /** The two triangles drawn over the quad of vertices `v, v + 1, v + 2, v + 3`. */
  function QuadSix(v: int): seq<int> {
    [v + 2, v + 1, v, v, v + 3, v + 2]
  }

  function Coordinate(p: Point, axis: nat): real
    requires axis < 3
  {
    if axis == 0 then p.x else if axis == 1 then p.y else p.z
  }

  /** The plane each face lies in: an axis and the coordinate along it. */
  const FACE_PLANES: seq<(nat, real)> := [(2, 0.5), (2, -0.5), (0, 0.5), (0, -0.5), (1, -0.5), (1, 0.5)]

  /** The four points of a quad lie in the plane where coordinate `axis` is `at`. */
  predicate InPlane(q: seq<Point>, axis: nat, at: real)
    requires |q| == 4 && axis < 3
  {
    Coordinate(q[0], axis) == at && Coordinate(q[1], axis) == at &&
    Coordinate(q[2], axis) == at && Coordinate(q[3], axis) == at
  }

  function Sub(a: Point, b: Point): Point {
    Point(a.x - b.x, a.y - b.y, a.z - b.z)
  }

  function Cross(a: Point, b: Point): Point {
    Point(a.y * b.z - a.z * b.y, a.z * b.x - a.x * b.z, a.x * b.y - a.y * b.x)
  }

  function Dot(a: Point, b: Point): real {
    a.x * b.x + a.y * b.y + a.z * b.z
  }

  /** The triangle (a, b, c) faces away from the cube's centre, the origin: the triple product
      `a . (b x c)` is positive. Seen from outside, such a triangle turns counter-clockwise in a
      right-handed frame and clockwise in a left-handed one, such as Direct3D's. */
  predicate Outward(a: Point, b: Point, c: Point) {
    Dot(a, Cross(b, c)) > 0.0
  }

  /** The triple product is the right-hand normal of the triangle, `(b - a) x (c - a)`, seen from
      its first vertex: positive when that normal points away from the origin. */
  lemma OutwardIsNormal(a: Point, b: Point, c: Point)
    ensures Outward(a, b, c) <==> Dot(Cross(Sub(b, a), Sub(c, a)), a) > 0.0
  {
  }

  /** The vertices of face `f`, one row of the vertex table. */
  function FaceQuad(f: nat): seq<Point>
    requires f < 6
  {
    if f == 0 then [FTL, FTR, FBR, FBL]
    else if f == 1 then [BTR, BTL, BBL, BBR]
    else if f == 2 then [FTR, BTR, BBR, FBR]
    else if f == 3 then [BTL, FTL, FBL, BBL]
    else if f == 4 then [FBL, FBR, BBR, BBL]
    else [FTL, BTL, BTR, FTR]
  }

  /** Face `f` is the `f`-th row of four in the vertex buffer. */
  lemma FaceQuadAt(f: nat)
    requires f < 6
    ensures |FaceQuad(f)| == 4 && CreateVolume().vertices[4 * f..4 * f + 4] == FaceQuad(f)
  {
  }

  /** Slots `6 * f` to `6 * f + 5` of the index buffer are the two triangles over face `f`'s
      own four vertices, sharing the diagonal from the first to the third. */
  lemma FaceIndices(f: nat)
    requires f < 6
    ensures CreateVolume().indices[6 * f..6 * f + 6] == QuadSix(4 * f)
  {
  }

  /** The four vertices of face `f` lie in the face's plane. */
  lemma FacePlane(f: nat)
    requires f < 6
    ensures FACE_PLANES[f].0 < 3 && InPlane(FaceQuad(f), FACE_PLANES[f].0, FACE_PLANES[f].1)
  {
  }

  /** One triangle of face `f`, the first or the second, read off its four vertices. */
  lemma FaceTriangleOutward(f: nat, second: bool)
    requires f < 6
    ensures (var q := FaceQuad(f); if second then Outward(q[0], q[3], q[2]) else Outward(q[2], q[1], q[0]))
  {
    if f == 0 {
    } else if f == 1 {
    } else if f == 2 {
    } else if f == 3 {
    } else if f == 4 {
    } else {
    }
  }

  /** Both triangles of face `f` in the index buffer turn the same way as seen from outside, so
      one cull mode removes the same side of every face. */
  lemma VolumeWinding(f: nat)
    requires f < 6
    ensures (var m := CreateVolume();
      Outward(m.vertices[m.indices[6 * f]], m.vertices[m.indices[6 * f + 1]], m.vertices[m.indices[6 * f + 2]]))
    ensures (var m := CreateVolume();
      Outward(m.vertices[m.indices[6 * f + 3]], m.vertices[m.indices[6 * f + 4]], m.vertices[m.indices[6 * f + 5]]))
  {
    FirstTriangle(f);
    FaceTriangleOutward(f, false);
    SecondTriangle(f);
    FaceTriangleOutward(f, true);
  }

  /** The first triangle of face `f` takes its third, second and first vertex. */
  lemma FirstTriangle(f: nat)
    requires f < 6
    ensures (var m, q := CreateVolume(), FaceQuad(f);
      m.vertices[m.indices[6 * f]] == q[2] && m.vertices[m.indices[6 * f + 1]] == q[1] &&
      m.vertices[m.indices[6 * f + 2]] == q[0])
  {
    var m := CreateVolume();
    FaceIndices(f);
    FaceQuadAt(f);
    assert m.indices[6 * f..6 * f + 6][0] == m.indices[6 * f];
    assert m.indices[6 * f..6 * f + 6][1] == m.indices[6 * f + 1];
    assert m.indices[6 * f..6 * f + 6][2] == m.indices[6 * f + 2];
    assert m.vertices[4 * f..4 * f + 4][2] == m.vertices[4 * f + 2];
    assert m.vertices[4 * f..4 * f + 4][1] == m.vertices[4 * f + 1];
    assert m.vertices[4 * f..4 * f + 4][0] == m.vertices[4 * f];
  }

  /** The second triangle of face `f` takes its first, fourth and third vertex. */
  lemma SecondTriangle(f: nat)
    requires f < 6
    ensures (var m, q := CreateVolume(), FaceQuad(f);
      m.vertices[m.indices[6 * f + 3]] == q[0] && m.vertices[m.indices[6 * f + 4]] == q[3] &&
      m.vertices[m.indices[6 * f + 5]] == q[2])
  {
    var m := CreateVolume();
    FaceIndices(f);
    FaceQuadAt(f);
    assert m.indices[6 * f..6 * f + 6][3] == m.indices[6 * f + 3];
    assert m.indices[6 * f..6 * f + 6][4] == m.indices[6 * f + 4];
    assert m.indices[6 * f..6 * f + 6][5] == m.indices[6 * f + 5];
    assert m.vertices[4 * f..4 * f + 4][0] == m.vertices[4 * f];
    assert m.vertices[4 * f..4 * f + 4][3] == m.vertices[4 * f + 3];
    assert m.vertices[4 * f..4 * f + 4][2] == m.vertices[4 * f + 2];
  }

  /** The six faces lie in six different planes, so every face of the cube is drawn once. */
  lemma FacePlanesDistinct()
    ensures forall f, g :: 0 <= f < g < 6 ==> FACE_PLANES[f] != FACE_PLANES[g]
  {
  }
}
