/**
 The bookkeeping of the voxel renderer: one buffer record per chunk mesh,
 refreshed from the mesher when its mesh is newer or on frame 0, and drawn
 with the index count stored at the last refresh. The OpenGL handles and
 calls themselves are not modelled.
 */
module VoxelRender {
  import CbVoxels
  import Meshes
  import VoxelMesher

  /** The modelled part of `MeshBuffers`. */
  datatype MeshBuffers = MeshBuffers(lastCalculatedFrame: nat, indicesCount: nat)

  /** `init_voxel_mesh_buffers`: one never-filled buffer per chunk. */
  function InitVoxelMeshBuffers(): (bs: seq<MeshBuffers>)
    ensures |bs| == CbVoxels.CHUNKS_CUBED
    ensures forall i :: 0 <= i < |bs| ==> bs[i].lastCalculatedFrame == 0 && bs[i].indicesCount == 0
  {
    seq(CbVoxels.CHUNKS_CUBED, _ => MeshBuffers(0, 0))
  }

  /** Whether `draw_meshes` copies the mesh into the buffer. */
  predicate NeedsRefresh(b: MeshBuffers, m: Meshes.Mesh, frame: nat)
  {
    m.generatedAtFrame > b.lastCalculatedFrame || frame == 0
  }

  /** One buffer's step in `draw_meshes`: the updated record and the index count drawn. */
  function RefreshBuffer(b: MeshBuffers, m: Meshes.Mesh, frame: nat): (r: (MeshBuffers, nat))
    ensures NeedsRefresh(b, m, frame) ==> r.0.lastCalculatedFrame == m.generatedAtFrame && r.0.indicesCount == |m.indices|
    ensures !NeedsRefresh(b, m, frame) ==> r.0 == b
    ensures r.1 == r.0.indicesCount
  {
    var b' := if NeedsRefresh(b, m, frame) then MeshBuffers(m.generatedAtFrame, |m.indices|) else b;
    (b', b'.indicesCount)
  }

  /** On a frame other than 0 a refresh happens only for a newer mesh, so the stored frame strictly grows. */
  lemma RefreshAdvancesFrame(b: MeshBuffers, m: Meshes.Mesh, frame: nat)
    requires frame != 0 && NeedsRefresh(b, m, frame)
    ensures RefreshBuffer(b, m, frame).0.lastCalculatedFrame > b.lastCalculatedFrame
  {
  }

  /** After a step, the same mesh is not copied again on a later non-zero frame. */
  lemma RefreshIsIdempotent(b: MeshBuffers, m: Meshes.Mesh, frame: nat, later: nat)
    requires later != 0
    ensures !NeedsRefresh(RefreshBuffer(b, m, frame).0, m, later)
  {
  }

  /**
   `draw_meshes` over every chunk: the refreshed records and the index count
   each chunk is drawn with.
   */
  method DrawMeshes(bs: seq<MeshBuffers>, vm: VoxelMesher.Mesher, frame: nat) returns (bs': seq<MeshBuffers>, drawn: seq<nat>)
    requires |bs| == CbVoxels.CHUNKS_CUBED && |vm.meshes| == CbVoxels.CHUNKS_CUBED
    ensures |bs'| == |bs| && |drawn| == |bs|
    ensures forall i :: 0 <= i < |bs| ==> bs'[i] == RefreshBuffer(bs[i], vm.meshes[i].mesh, frame).0
    ensures forall i :: 0 <= i < |bs| ==> drawn[i] == bs'[i].indicesCount
    ensures forall i :: 0 <= i < |bs| && !NeedsRefresh(bs[i], vm.meshes[i].mesh, frame) ==> bs'[i] == bs[i] && drawn[i] == bs[i].indicesCount
  {
    bs' := bs;
    drawn := [];
    var i := 0;
    while i < CbVoxels.CHUNKS_CUBED
      invariant 0 <= i <= CbVoxels.CHUNKS_CUBED && |bs'| == |bs| && |drawn| == i
      invariant forall k :: 0 <= k < i ==> bs'[k] == RefreshBuffer(bs[k], vm.meshes[k].mesh, frame).0 && drawn[k] == bs'[k].indicesCount
      invariant forall k :: i <= k < |bs| ==> bs'[k] == bs[k]
    {
      var (b, count) := RefreshBuffer(bs'[i], vm.meshes[i].mesh, frame);
      bs' := bs'[i := b];
      drawn := drawn + [count];
      i := i + 1;
    }
  }
}
