/**
 `VoxelMesher`: one mesh per chunk, rebuilt by the greedy mesher when its
 chunk changed since the mesh was generated, or on the first frame.

 The mesher reads the chunks as a `[x][y][z]` array of (frame updated at,
 voxels); this is the chunk layout the mesher is written against, and it
 differs from `CbChunkManager`'s flat chunk list. The camera, the
 level-of-detail choice (disabled) and the extra arguments passed to
 `calculate_greedy_mesh` are not modelled.
 */
module VoxelMesher {
  import opened Base
  import CbMath
  import CbVoxels
  import GreedyFaces
  import GreedyMesher
  import Meshes

  /** `VoxelMeshWrapper`. */
  datatype MeshWrapper = MeshWrapper(mesh: Meshes.Mesh, lodScale: nat)

  /** `VoxelMesher`. */
  datatype Mesher = Mesher(mesh: Meshes.Mesh, firstFrame: bool, meshes: seq<MeshWrapper>)

  /** A chunk as the mesher reads it. */
  datatype ChunkView = ChunkView(frameUpdatedAt: nat, voxels: GreedyFaces.Grid)

  /** The chunk array: CHUNKS × CHUNKS × CHUNKS chunks. */
  predicate IsChunkCube(ca: seq<seq<seq<ChunkView>>>)
  {
    |ca| == CbVoxels.CHUNKS
    && forall x :: 0 <= x < |ca| ==> |ca[x]| == CbVoxels.CHUNKS && forall y :: 0 <= y < |ca[x]| ==> |ca[x][y]| == CbVoxels.CHUNKS
  }

  /** `VoxelMesher::new`: CHUNK_SIZE_CUBED empty meshes at frame 0 with level of detail 1, first frame pending. */
  function NewMesher(): (vm: Mesher)
    ensures vm.firstFrame && vm.mesh == Meshes.EmptyMesh(0)
    ensures |vm.meshes| == CbVoxels.CHUNK_SIZE_CUBED == CbVoxels.CHUNKS_CUBED
    ensures forall k :: 0 <= k < |vm.meshes| ==> vm.meshes[k].lodScale == 1 && vm.meshes[k].mesh == Meshes.EmptyMesh(0)
  {
    Mesher(Meshes.EmptyMesh(0), true, seq(CbVoxels.CHUNK_SIZE_CUBED, _ => MeshWrapper(Meshes.EmptyMesh(0), 1)))
  }

  /**
   The list of levels of detail: 1, then every power of two below CHUNKS.
   It stops at the first power of two that reaches CHUNKS.
   */
  method AvailableLods() returns (lods: seq<nat>)
    ensures |lods| >= 1 && lods[0] == 1
    ensures forall k :: 1 <= k < |lods| ==> lods[k] == CbMath.Power(2, k) && lods[k] < CbVoxels.CHUNKS
    ensures CbMath.Power(2, |lods|) >= CbVoxels.CHUNKS
    ensures lods == [1, 2]
  {
    lods := [1];
    var i := 2;
    while i < CbVoxels.CHUNKS
      invariant |lods| >= 1 && lods[0] == 1
      invariant i == CbMath.Power(2, |lods|)
      invariant forall k :: 1 <= k < |lods| ==> lods[k] == CbMath.Power(2, k) && lods[k] < CbVoxels.CHUNKS
      decreases CbVoxels.CHUNKS - i
    {
      lods := lods + [i];
      i := i * 2;
    }
    assert CbMath.Power(2, 1) == 2 && CbMath.Power(2, 2) == 4;
  }

  /** The position of chunk (x, y, z) in the mesh list: x slowest, z fastest. */
  function MeshIndex(x: nat, y: nat, z: nat): nat
  {
    x * 16 + y * 4 + z
  }

  /** The enumeration visits each of the 64 mesh slots exactly once. */
  lemma MeshIndexBijective(x: nat, y: nat, z: nat, x': nat, y': nat, z': nat, k: nat)
    requires x < 4 && y < 4 && z < 4 && x' < 4 && y' < 4 && z' < 4
    ensures MeshIndex(x, y, z) < 64
    ensures MeshIndex(x, y, z) == MeshIndex(x', y', z') ==> x == x' && y == y' && z == z'
    ensures k < 64 ==> MeshIndex(k / 16, (k / 4) % 4, k % 4) == k
  {
    var i, i' := MeshIndex(x, y, z), MeshIndex(x', y', z');
    CbMath.DivModUnique(i, 4, 4 * x + y, z);
    CbMath.DivModUnique(4 * x + y, 4, x, y);
    CbMath.DivModUnique(i', 4, 4 * x' + y', z');
    CbMath.DivModUnique(4 * x' + y', 4, x', y');
    if k < 64 {
      var a, rem := k / 16, k % 16;
      var b, c := rem / 4, rem % 4;
      assert k == 4 * (4 * a + b) + c;
      CbMath.DivModUnique(k, 4, 4 * a + b, c);
      CbMath.DivModUnique(4 * a + b, 4, a, b);
    }
  }

  /** Whether the mesh of a slot must be rebuilt: its chunk changed at or after the mesh's frame, or this is the first frame. */
  predicate NeedsRemesh(w: MeshWrapper, c: ChunkView, firstFrame: bool)
  {
    c.frameUpdatedAt >= w.mesh.generatedAtFrame || firstFrame
  }

  /** A freshly meshed slot: level of detail 1 and the greedy mesh of chunk `c`, generated at `frame`. */
  predicate Remeshed(w: MeshWrapper, c: ChunkView, frame: nat)
  {
    && w.mesh == GreedyMesher.GreedyMesh(c.voxels, frame)
    && w.lodScale == 1
    && w.mesh.generatedAtFrame == frame
    && w.mesh.vertexSize == 3
    && (forall k :: 0 <= k < |w.mesh.indices| ==> 0 <= w.mesh.indices[k] < |w.mesh.vertices| / 3)
  }

  /** What `mesh` leaves in one slot. */
  predicate SlotAfter(before: MeshWrapper, after: MeshWrapper, c: ChunkView, firstFrame: bool, frame: nat)
  {
    if NeedsRemesh(before, c, firstFrame) then Remeshed(after, c, frame) else after == before
  }

  /** The body of the innermost loop: slot `k` is rebuilt from chunk `c` when it needs it; no other slot changes. */
  method MeshSlot(meshes: seq<MeshWrapper>, k: nat, c: ChunkView, firstFrame: bool, frame: nat) returns (meshes': seq<MeshWrapper>)
    requires k < |meshes|
    ensures |meshes'| == |meshes|
    ensures SlotAfter(meshes[k], meshes'[k], c, firstFrame, frame)
    ensures forall k' :: 0 <= k' < |meshes| && k' != k ==> meshes'[k'] == meshes[k']
  {
    meshes' := meshes;
    if NeedsRemesh(meshes[k], c, firstFrame) {
      var greedy := GreedyMesher.CalculateGreedyMesh(c.voxels, frame);
      meshes' := meshes[k := MeshWrapper(greedy, 1)];
    }
  }

  /**
   The z loop's state after the first `z` slots of column (x, y): those slots
   are rebuilt or kept, and every other slot is as it was.
   */
  predicate ColumnSweptTo(ca: seq<seq<seq<ChunkView>>>, firstFrame: bool, frame: nat, meshes0: seq<MeshWrapper>, meshes: seq<MeshWrapper>, x: nat, y: nat, z: nat)
    requires IsChunkCube(ca) && |meshes0| == 64 && |meshes| == 64 && x < 4 && y < 4
  {
    && (forall c: nat :: c < z && c < 4 ==>
          SlotAfter(meshes0[MeshIndex(x, y, c)], meshes[MeshIndex(x, y, c)], ca[x][y][c], firstFrame, frame))
    && (forall a: nat, b: nat, c: nat :: a < 4 && b < 4 && c < 4 && !(a == x && b == y && c < z) ==>
          meshes[MeshIndex(a, b, c)] == meshes0[MeshIndex(a, b, c)])
  }

  /** After slot (x, y, z) is rebuilt or kept, slots (x, y, 0) to (x, y, z) are as `mesh` leaves them. */
  lemma ColumnSlotsAfter(ca: seq<seq<seq<ChunkView>>>, firstFrame: bool, frame: nat, meshes0: seq<MeshWrapper>, meshes: seq<MeshWrapper>,
                         meshes': seq<MeshWrapper>, x: nat, y: nat, z: nat)
    requires IsChunkCube(ca) && |meshes0| == 64 && |meshes| == 64 && |meshes'| == 64 && x < 4 && y < 4 && z < 4
    requires ColumnSweptTo(ca, firstFrame, frame, meshes0, meshes, x, y, z)
    requires SlotAfter(meshes[MeshIndex(x, y, z)], meshes'[MeshIndex(x, y, z)], ca[x][y][z], firstFrame, frame)
    requires forall k :: 0 <= k < 64 && k != MeshIndex(x, y, z) ==> meshes'[k] == meshes[k]
    ensures forall c: nat :: c < z + 1 && c < 4 ==>
      SlotAfter(meshes0[MeshIndex(x, y, c)], meshes'[MeshIndex(x, y, c)], ca[x][y][c], firstFrame, frame)
  {
    forall c: nat | c < z + 1 && c < 4
      ensures SlotAfter(meshes0[MeshIndex(x, y, c)], meshes'[MeshIndex(x, y, c)], ca[x][y][c], firstFrame, frame)
    {
      if c < z {
        MeshIndexBijective(x, y, c, x, y, z, 0);
        assert meshes'[MeshIndex(x, y, c)] == meshes[MeshIndex(x, y, c)];
      } else {
        assert meshes[MeshIndex(x, y, z)] == meshes0[MeshIndex(x, y, z)];
      }
    }
  }

  /** After slot (x, y, z) is rebuilt or kept, every slot outside (x, y, 0) to (x, y, z) is still as it was. */
  lemma OtherSlotsKept(meshes0: seq<MeshWrapper>, meshes: seq<MeshWrapper>, meshes': seq<MeshWrapper>, x: nat, y: nat, z: nat)
    requires |meshes0| == 64 && |meshes| == 64 && |meshes'| == 64 && x < 4 && y < 4 && z < 4
    requires forall a: nat, b: nat, c: nat :: a < 4 && b < 4 && c < 4 && !(a == x && b == y && c < z) ==>
      meshes[MeshIndex(a, b, c)] == meshes0[MeshIndex(a, b, c)]
    requires forall k :: 0 <= k < 64 && k != MeshIndex(x, y, z) ==> meshes'[k] == meshes[k]
    ensures forall a: nat, b: nat, c: nat :: a < 4 && b < 4 && c < 4 && !(a == x && b == y && c < z + 1) ==>
      meshes'[MeshIndex(a, b, c)] == meshes0[MeshIndex(a, b, c)]
  {
    forall a: nat, b: nat, c: nat | a < 4 && b < 4 && c < 4 && !(a == x && b == y && c < z + 1)
      ensures meshes'[MeshIndex(a, b, c)] == meshes0[MeshIndex(a, b, c)]
    {
      MeshIndexBijective(a, b, c, x, y, z, 0);
    }
  }

  /** One turn of the z loop: slot (x, y, z) is rebuilt or kept, and the loop's state moves on by one slot. */
  method MeshColumnStep(ca: seq<seq<seq<ChunkView>>>, firstFrame: bool, frame: nat, meshes0: seq<MeshWrapper>, meshes: seq<MeshWrapper>, x: nat, y: nat, z: nat)
    returns (meshes': seq<MeshWrapper>)
    requires IsChunkCube(ca) && |meshes0| == 64 && |meshes| == 64 && x < 4 && y < 4 && z < 4
    requires ColumnSweptTo(ca, firstFrame, frame, meshes0, meshes, x, y, z)
    ensures |meshes'| == 64
    ensures ColumnSweptTo(ca, firstFrame, frame, meshes0, meshes', x, y, z + 1)
  {
    meshes' := MeshSlot(meshes, MeshIndex(x, y, z), ca[x][y][z], firstFrame, frame);
    ColumnSlotsAfter(ca, firstFrame, frame, meshes0, meshes, meshes', x, y, z);
    OtherSlotsKept(meshes0, meshes, meshes', x, y, z);
  }

  /** The z loop of `mesh` for column (x, y): its four slots, in order; no other slot changes. */
  method MeshColumn(ca: seq<seq<seq<ChunkView>>>, firstFrame: bool, frame: nat, meshes0: seq<MeshWrapper>, meshIndex0: nat, x: nat, y: nat)
    returns (meshes: seq<MeshWrapper>, meshIndex: nat)
    requires IsChunkCube(ca) && |meshes0| == 64 && x < 4 && y < 4 && meshIndex0 == MeshIndex(x, y, 0)
    ensures |meshes| == 64 && meshIndex == meshIndex0 + 4
    ensures ColumnSweptTo(ca, firstFrame, frame, meshes0, meshes, x, y, 4)
  {
    meshes, meshIndex := meshes0, meshIndex0;
    var z := 0;
    while z < CbVoxels.CHUNKS
      invariant 0 <= z <= 4 && meshIndex == MeshIndex(x, y, z) && |meshes| == 64
      invariant ColumnSweptTo(ca, firstFrame, frame, meshes0, meshes, x, y, z)
    {
      meshes := MeshColumnStep(ca, firstFrame, frame, meshes0, meshes, x, y, z);
      meshIndex := meshIndex + 1;
      z := z + 1;
    }
  }

  /**
   `VoxelMesher::mesh`: walks the chunk array x, then y, then z, rebuilding the
   slots whose chunk changed; afterwards the first frame is over.
   */
  method MeshChunks(vm: Mesher, ca: seq<seq<seq<ChunkView>>>, frame: nat) returns (r: Mesher)
    requires |vm.meshes| == CbVoxels.CHUNK_SIZE_CUBED && IsChunkCube(ca)
    ensures !r.firstFrame && r.mesh == vm.mesh && |r.meshes| == |vm.meshes|
    ensures forall x: nat, y: nat, z: nat :: x < 4 && y < 4 && z < 4 ==>
      SlotAfter(vm.meshes[MeshIndex(x, y, z)], r.meshes[MeshIndex(x, y, z)], ca[x][y][z], vm.firstFrame, frame)
  {
    var meshes := vm.meshes;
    var meshIndex := 0;
    var x := 0;
    while x < CbVoxels.CHUNKS
      invariant 0 <= x <= 4 && meshIndex == x * 16 && |meshes| == 64
      invariant forall a: nat, b: nat, c: nat :: a < 4 && b < 4 && c < 4 ==>
        if a < x then SlotAfter(vm.meshes[MeshIndex(a, b, c)], meshes[MeshIndex(a, b, c)], ca[a][b][c], vm.firstFrame, frame)
        else meshes[MeshIndex(a, b, c)] == vm.meshes[MeshIndex(a, b, c)]
    {
      var y := 0;
      while y < CbVoxels.CHUNKS
        invariant 0 <= y <= 4 && meshIndex == x * 16 + y * 4 && |meshes| == 64
        invariant forall a: nat, b: nat, c: nat :: a < 4 && b < 4 && c < 4 ==>
          if a < x || (a == x && b < y) then SlotAfter(vm.meshes[MeshIndex(a, b, c)], meshes[MeshIndex(a, b, c)], ca[a][b][c], vm.firstFrame, frame)
          else meshes[MeshIndex(a, b, c)] == vm.meshes[MeshIndex(a, b, c)]
      {
        meshes, meshIndex := MeshColumn(ca, vm.firstFrame, frame, meshes, meshIndex, x, y);
        y := y + 1;
      }
      x := x + 1;
    }
    r := vm.(meshes := meshes, firstFrame := false);
  }

  /** After the first frame's pass every slot holds its chunk's greedy mesh, generated at `frame`. */
  lemma MeshedSlotsAreCurrent(before: MeshWrapper, after: MeshWrapper, c: ChunkView, frame: nat)
    requires SlotAfter(before, after, c, true, frame)
    ensures after.mesh == GreedyMesher.GreedyMesh(c.voxels, frame)
    ensures after.mesh.generatedAtFrame == frame && after.lodScale == 1
  {
  }
}
