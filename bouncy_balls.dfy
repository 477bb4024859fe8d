// MakeSphereMesh (BouncyBalls/BouncyBallsMain.cpp:157-267): the sphere the bouncing balls are
// drawn with, as four vertex streams and a 16-bit index buffer.

module BouncyBalls {

  import opened SphereMesh

  /** The most indices the sphere's guard allows in its 16-bit index buffer. */
  const MAX_SPHERE_INDICES: nat := 0xfff7

  /** The buffers of the sphere. The position, normal, tangent and texture-coordinate streams all
      follow one slot layout, so one sequence of slots stands for the four of them; `indexCount`
      is the count the index buffer records. */
  datatype MeshBuffers = MeshBuffers(vertexSlots: seq<SphereVertex>, indices: seq<int>, indexCount: nat)

  /** The sphere is built from the counts the source computes in u32; under the intended guard
      those are the true counts, the streams hold one slot per vertex, and every index names a
      slot and fits in 16 bits. */
  method MakeSphereMesh(slices: nat, stacks: nat) returns (m: MeshBuffers)
    requires slices < U32_MODULUS && stacks < U32_MODULUS
    requires SphereFits(slices, stacks, MAX_SPHERE_INDICES)
    ensures m.vertexSlots == Layout(slices, stacks)
    ensures m.indices == SphereIndices(slices, stacks)
    ensures m.indexCount == |m.indices| == IndexCountU32(slices, stacks)
    ensures |m.vertexSlots| == VertexCountU32(slices, stacks)
    ensures forall k :: 0 <= k < |m.indices| ==> 0 <= m.indices[k] < |m.vertexSlots|
    ensures |m.vertexSlots| <= 0x1_0000
  {
    var indexCount := IndexCountU32(slices, stacks);
    var vertexCount := VertexCountU32(slices, stacks);
    FittingCountsAgree(slices, stacks, MAX_SPHERE_INDICES);
    assert indexCount <= MAX_SPHERE_INDICES;
    var verts := SphereVertexSlots(slices, stacks);
    var indices := SphereIndexBuffer(slices, stacks);
    IndicesInRange(slices, stacks, MAX_SPHERE_INDICES);
    m := MeshBuffers(verts, indices, |indices|);
  }
}
