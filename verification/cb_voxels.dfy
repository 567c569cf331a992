/**
 Voxel storage: a fixed cube of chunks, each a fixed cube of voxels, and the
 mapping from world coordinates to a chunk and a voxel inside it.

 `index_3d_to_1d` is not part of this model; it is passed in as a total
 function `idx`, and `ValidIndex3d` states the bound callers may assume.
 The parallel iteration of `randomize` works on independent chunks and is
 modelled sequentially.
 */
module CbVoxels {
  import opened Base
  import CbMath

  const CHUNK_SIZE: nat := 4
  const CHUNK_SIZE_SQUARED: nat := CHUNK_SIZE * CHUNK_SIZE
  const CHUNK_SIZE_CUBED: nat := CHUNK_SIZE * CHUNK_SIZE * CHUNK_SIZE
  const MAX_CHUNK_INDEX: nat := CHUNK_SIZE - 1
  const CHUNKS: nat := 4
  const CHUNKS_SQUARED: nat := CHUNKS * CHUNKS
  const CHUNKS_CUBED: nat := CHUNKS * CHUNKS * CHUNKS

  const VOXEL_TYPE_DEFAULT: Byte := 0
  const VOXEL_TYPE_GRASS: Byte := 1
  const VOXEL_TYPE_DIRT: Byte := 2

  /** `CbVoxel`: (active, visible, type, misc). */
  datatype Voxel = Voxel(active: bool, visible: bool, voxelType: Byte, misc: Byte)

  /** `CbVoxelChunk`: the frame it last changed at and its voxels. */
  datatype Chunk = Chunk(frameUpdatedAt: nat, voxels: seq<Voxel>)

  /** `CbChunkManager`. */
  datatype ChunkManager = ChunkManager(dirty: bool, randomizerIndex: nat, chunks: seq<Chunk>)

  /** Where a world coordinate lands: a chunk index and a voxel index inside that chunk. */
  datatype VoxelAddress = VoxelAddress(chunkIndex: nat, voxelIndex: nat)

  /** `index_3d_to_1d(x, y, z, n)`, whose body is not part of this model. */
  type Index3d = (nat, nat, nat, nat) -> nat

  /** What callers may assume of `index_3d_to_1d`: coordinates inside an n-cube land inside it. */
  ghost predicate ValidIndex3d(idx: Index3d)
  {
    forall x: nat, y: nat, z: nat, n: nat :: x < n && y < n && z < n ==> idx(x, y, z, n) < n * n * n
  }

  /** The shape `new` builds: CHUNKS_CUBED chunks of CHUNK_SIZE_CUBED voxels. */
  predicate WellFormed(m: ChunkManager)
  {
    |m.chunks| == CHUNKS_CUBED && forall c :: c in m.chunks ==> |c.voxels| == CHUNK_SIZE_CUBED
  }

  const FRESH_VOXEL: Voxel := Voxel(false, true, VOXEL_TYPE_GRASS, 0)

  /** `CbVoxelChunk::new`: inactive, visible grass voxels, never updated. */
  function NewChunk(): (c: Chunk)
    ensures c.frameUpdatedAt == 0 && |c.voxels| == CHUNK_SIZE_CUBED == 64
    ensures forall v :: v in c.voxels ==> !v.active && v.visible && v.voxelType == VOXEL_TYPE_GRASS && v.misc == 0
  {
    Chunk(0, seq(CHUNK_SIZE_CUBED, _ => FRESH_VOXEL))
  }

  /** `CbChunkManager::new`: fresh chunks, marked dirty, randomizer at 0. */
  function NewManager(): (m: ChunkManager)
    ensures WellFormed(m) && |m.chunks| == 64
    ensures m.dirty && m.randomizerIndex == 0
    ensures forall c :: c in m.chunks ==> c == NewChunk()
  {
    ChunkManager(true, 0, seq(CHUNKS_CUBED, _ => NewChunk()))
  }

  /** `get_voxel_width`: the number of voxels along one edge of the world. */
  function VoxelWidth(m: ChunkManager): (w: nat)
    ensures w == 16
  {
    CHUNKS * CHUNK_SIZE
  }

  /**
   The per-axis voxel coordinate inside chunk `chunk`: the coordinate minus
   the voxels before the chunk, or 0 when that would go below zero.
   */
  function LocalCoordinate(v: nat, chunk: nat): (r: nat)
  {
    var voxelsToRemove := chunk * CHUNK_SIZE;
    if voxelsToRemove > v then 0 else v - voxelsToRemove
  }

  /** Whether a world coordinate on one axis lands inside its chunk under `get_voxel_mut`'s mapping. */
  predicate InChunk(v: nat)
  {
    LocalCoordinate(v, v % CHUNKS) < CHUNK_SIZE
  }

  /**
   The addressing of `get_voxel_mut`: chunk coordinates by remainder, voxel
   coordinates by saturating subtraction. Panics when either index is past
   the end of its vector.
   */
  function Locate(m: ChunkManager, x: nat, y: nat, z: nat, idx: Index3d): (r: Result<VoxelAddress>)
    ensures r.Ok? ==> r.value.chunkIndex == idx(x % CHUNKS, y % CHUNKS, z % CHUNKS, CHUNKS)
    ensures r.Ok? ==> r.value.voxelIndex == idx(LocalCoordinate(x, x % CHUNKS), LocalCoordinate(y, y % CHUNKS), LocalCoordinate(z, z % CHUNKS), CHUNK_SIZE)
    ensures r.Ok? ==> r.value.chunkIndex < |m.chunks| && r.value.voxelIndex < |m.chunks[r.value.chunkIndex].voxels|
    ensures r.Fail? ==> r.fault == IndexOutOfBounds
  {
    var cx, cy, cz := x % CHUNKS, y % CHUNKS, z % CHUNKS;
    var chunkIndex := idx(cx, cy, cz, CHUNKS);
    if chunkIndex >= |m.chunks| then
      Fail(IndexOutOfBounds)
    else
      var voxelIndex := idx(LocalCoordinate(x, cx), LocalCoordinate(y, cy), LocalCoordinate(z, cz), CHUNK_SIZE);
      if voxelIndex >= |m.chunks[chunkIndex].voxels| then Fail(IndexOutOfBounds)
      else Ok(VoxelAddress(chunkIndex, voxelIndex))
  }

  /** The chunk coordinates `get_voxel_mut` picks are each below CHUNKS. */
  lemma ChunkCoordinatesInRange(x: nat, y: nat, z: nat)
    ensures x % CHUNKS < CHUNKS && y % CHUNKS < CHUNKS && z % CHUNKS < CHUNKS
  {
  }

  /**
   The in-bounds condition the mapping leaves implicit: with a well-formed
   manager and a valid `index_3d_to_1d`, a lookup succeeds if every
   coordinate lands inside its chunk.
   */
  lemma LocateSucceedsInChunk(m: ChunkManager, x: nat, y: nat, z: nat, idx: Index3d)
    requires WellFormed(m) && ValidIndex3d(idx)
    requires InChunk(x) && InChunk(y) && InChunk(z)
    ensures Locate(m, x, y, z, idx).Ok?
  {
    var ci := idx(x % CHUNKS, y % CHUNKS, z % CHUNKS, CHUNKS);
    assert ci < |m.chunks|;
    assert m.chunks[ci] in m.chunks;
  }

  /**
   Which of the 16 coordinates of one axis the mapping keeps inside a chunk:
   only 0, 1, 2, 3, 5, 6, 7, 10, 11 and 15.
   */
  lemma InChunkCoordinates(v: nat)
    requires v < 16
    ensures InChunk(v) <==> v in {0, 1, 2, 3, 5, 6, 7, 10, 11, 15}
  {
  }

  /**
   `get_voxel_mut` followed by a write `f` through the returned reference:
   stamps the addressed chunk with `frame` and replaces the addressed voxel.
   */
  function UpdateVoxel(m: ChunkManager, x: nat, y: nat, z: nat, frame: nat, idx: Index3d, f: Voxel -> Voxel): (r: Result<ChunkManager>)
    ensures r.Ok? <==> Locate(m, x, y, z, idx).Ok?
    ensures r.Fail? ==> r.fault == IndexOutOfBounds
    ensures r.Ok? ==>
      var a := Locate(m, x, y, z, idx).value;
      var c := m.chunks[a.chunkIndex];
      && r.value.dirty == m.dirty && r.value.randomizerIndex == m.randomizerIndex
      && |r.value.chunks| == |m.chunks|
      && r.value.chunks[a.chunkIndex].frameUpdatedAt == frame
      && |r.value.chunks[a.chunkIndex].voxels| == |c.voxels|
      && r.value.chunks[a.chunkIndex].voxels[a.voxelIndex] == f(c.voxels[a.voxelIndex])
      && (forall j :: 0 <= j < |c.voxels| && j != a.voxelIndex ==> r.value.chunks[a.chunkIndex].voxels[j] == c.voxels[j])
      && (forall k :: 0 <= k < |m.chunks| && k != a.chunkIndex ==> r.value.chunks[k] == m.chunks[k])
  {
    match Locate(m, x, y, z, idx)
    case Fail(e) => Fail(e)
    case Ok(a) =>
      var c := m.chunks[a.chunkIndex];
      var c' := Chunk(frame, c.voxels[a.voxelIndex := f(c.voxels[a.voxelIndex])]);
      Ok(m.(chunks := m.chunks[a.chunkIndex := c']))
  }

  /** `get_voxel`: reads the voxel `get_voxel_mut` would address, without stamping a frame. */
  function GetVoxel(m: ChunkManager, x: nat, y: nat, z: nat, idx: Index3d): (r: Result<Voxel>)
    ensures r.Ok? <==> Locate(m, x, y, z, idx).Ok?
    ensures r.Ok? ==> r.value in m.chunks[Locate(m, x, y, z, idx).value.chunkIndex].voxels
  {
    match Locate(m, x, y, z, idx)
    case Fail(e) => Fail(e)
    case Ok(a) => Ok(m.chunks[a.chunkIndex].voxels[a.voxelIndex])
  }

  /** Reading back the voxel just written yields the written value. */
  lemma ReadAfterUpdate(m: ChunkManager, x: nat, y: nat, z: nat, frame: nat, idx: Index3d, f: Voxel -> Voxel)
    requires UpdateVoxel(m, x, y, z, frame, idx, f).Ok?
    ensures GetVoxel(UpdateVoxel(m, x, y, z, frame, idx, f).value, x, y, z, idx)
         == Ok(f(GetVoxel(m, x, y, z, idx).value))
  {
    var m' := UpdateVoxel(m, x, y, z, frame, idx, f).value;
    var a := Locate(m, x, y, z, idx).value;
    assert |m'.chunks[a.chunkIndex].voxels| == |m.chunks[a.chunkIndex].voxels|;
    assert Locate(m', x, y, z, idx) == Locate(m, x, y, z, idx);
  }

  /** Two world x-coordinates the as-written mapping sends to the same voxel. */
  lemma LocateAliases(m: ChunkManager, idx: Index3d)
    ensures Locate(m, 2, 0, 0, idx) == Locate(m, 6, 0, 0, idx)
    ensures !InChunk(4)
  {
    assert LocalCoordinate(2, 2 % CHUNKS) == 0 && LocalCoordinate(6, 6 % CHUNKS) == 0;
  }

  /** The mapping the voxel width implies: chunk by quotient, voxel by remainder. */
  function IntendedAxis(v: nat): (r: (nat, nat))
    ensures r.0 * CHUNK_SIZE + r.1 == v && r.1 < CHUNK_SIZE
  {
    (v / CHUNK_SIZE, v % CHUNK_SIZE)
  }

  /** `get_voxel_mut`'s addressing with the intended per-axis mapping. */
  function LocateIntended(m: ChunkManager, x: nat, y: nat, z: nat, idx: Index3d): (r: Result<VoxelAddress>)
    ensures r.Ok? ==> r.value.chunkIndex < |m.chunks| && r.value.voxelIndex < |m.chunks[r.value.chunkIndex].voxels|
    ensures r.Fail? ==> r.fault == IndexOutOfBounds
  {
    var (cx, vx) := IntendedAxis(x);
    var (cy, vy) := IntendedAxis(y);
    var (cz, vz) := IntendedAxis(z);
    var chunkIndex := idx(cx, cy, cz, CHUNKS);
    if chunkIndex >= |m.chunks| then
      Fail(IndexOutOfBounds)
    else
      var voxelIndex := idx(vx, vy, vz, CHUNK_SIZE);
      if voxelIndex >= |m.chunks[chunkIndex].voxels| then Fail(IndexOutOfBounds)
      else Ok(VoxelAddress(chunkIndex, voxelIndex))
  }

  /** Under the intended mapping distinct coordinates of one axis never share a (chunk, voxel) pair. */
  lemma IntendedAxisInjective(v: nat, w: nat)
    requires IntendedAxis(v) == IntendedAxis(w)
    ensures v == w
  {
  }

  /** Under the intended mapping every coordinate inside the voxel width addresses a voxel. */
  lemma LocateIntendedSucceeds(m: ChunkManager, x: nat, y: nat, z: nat, idx: Index3d)
    requires WellFormed(m) && ValidIndex3d(idx)
    requires x < VoxelWidth(m) && y < VoxelWidth(m) && z < VoxelWidth(m)
    ensures LocateIntended(m, x, y, z, idx).Ok?
  {
    var ci := idx(x / CHUNK_SIZE, y / CHUNK_SIZE, z / CHUNK_SIZE, CHUNKS);
    assert ci < |m.chunks|;
    assert m.chunks[ci] in m.chunks;
  }

  /**
   Whether `randomize(tick)` toggles the voxel at flat index `i` of a chunk:
   the voxel's coordinates plus the tick are a multiple of 7.
   */
  predicate Flips(i: nat, tick: nat)
  {
    var c := CbMath.Index1dTo3d(i, CHUNK_SIZE, CHUNK_SIZE);
    c.Ok? && (c.value.x + c.value.y + c.value.z + tick) % 7 == 0
  }

  /** The flip condition in terms of the flat index alone (x fastest, then y, then z). */
  lemma FlipsByCoordinates(i: nat, tick: nat)
    requires i < CHUNK_SIZE_CUBED
    ensures Flips(i, tick) <==> (i % 4 + (i / 4) % 4 + i / 16 + tick) % 7 == 0
  {
    var c := CbMath.Index1dTo3d(i, CHUNK_SIZE, CHUNK_SIZE).value;
    CbMath.DivModUnique(i, 4, c.y + 4 * c.z, c.x);
    CbMath.DivModUnique(i / 4, 4, c.z, c.y);
  }

  function Toggled(v: Voxel, flip: bool): Voxel
  {
    if flip then v.(active := !v.active) else v
  }

  /** One chunk of `randomize(tick)`. */
  function RandomizeChunk(c: Chunk, tick: nat): (r: Chunk)
    ensures r.frameUpdatedAt == tick && |r.voxels| == |c.voxels|
    ensures forall j :: 0 <= j < |c.voxels| ==> (r.voxels[j].active != c.voxels[j].active <==> Flips(j, tick))
    ensures forall j :: 0 <= j < |c.voxels| ==>
      r.voxels[j].visible == c.voxels[j].visible && r.voxels[j].voxelType == c.voxels[j].voxelType && r.voxels[j].misc == c.voxels[j].misc
  {
    Chunk(tick, seq(|c.voxels|, j requires 0 <= j < |c.voxels| => Toggled(c.voxels[j], Flips(j, tick))))
  }

  /** `randomize(tick)`: stamps every chunk with `tick` and toggles the selected voxels. */
  function Randomize(m: ChunkManager, tick: nat): (r: ChunkManager)
    ensures r.dirty == m.dirty && r.randomizerIndex == m.randomizerIndex && |r.chunks| == |m.chunks|
    ensures forall k :: 0 <= k < |m.chunks| ==> r.chunks[k].frameUpdatedAt == tick && |r.chunks[k].voxels| == |m.chunks[k].voxels|
    ensures forall k, j :: 0 <= k < |m.chunks| && 0 <= j < |m.chunks[k].voxels| ==>
      (r.chunks[k].voxels[j].active != m.chunks[k].voxels[j].active <==> Flips(j, tick))
    ensures forall k, j :: 0 <= k < |m.chunks| && 0 <= j < |m.chunks[k].voxels| ==>
      r.chunks[k].voxels[j] == m.chunks[k].voxels[j].(active := r.chunks[k].voxels[j].active)
  {
    m.(chunks := seq(|m.chunks|, k requires 0 <= k < |m.chunks| => RandomizeChunk(m.chunks[k], tick)))
  }

  /** Randomizing twice with the same tick restores every voxel. */
  lemma RandomizeTwiceRestores(m: ChunkManager, tick: nat)
    ensures var r := Randomize(Randomize(m, tick), tick);
      |r.chunks| == |m.chunks| && forall k :: 0 <= k < |m.chunks| ==> r.chunks[k].voxels == m.chunks[k].voxels
  {
    var r := Randomize(Randomize(m, tick), tick);
    forall k | 0 <= k < |m.chunks|
      ensures r.chunks[k].voxels == m.chunks[k].voxels
    {
      assert |r.chunks[k].voxels| == |m.chunks[k].voxels|;
      forall j | 0 <= j < |m.chunks[k].voxels|
        ensures r.chunks[k].voxels[j] == m.chunks[k].voxels[j]
      {
      }
    }
  }
}
