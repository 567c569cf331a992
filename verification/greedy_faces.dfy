/**
 The face side of the greedy mesher: the voxel grid it reads, the face each
 voxel shows, the axes and side of each of the six sweeps, and the mask of
 visible faces computed for one slice of a sweep.

 The grid is the mesher's own `[x][y][z]` voxel array, kept flat with x
 slowest and z fastest.
 */
module GreedyFaces {
  import opened Base
  import CbMath

  /** The edge length of the chunk the mesher sweeps (CHUNK_SIZE). */
  const WIDTH: nat := 4
  const MAX_INDEX: nat := WIDTH - 1

  /** `CbVoxelTypes`. */
  datatype VoxelKind = Default | Dirt | Grass | Water | Stone | Wood | Sand | Metal

  /** The two fields of a voxel the mesher reads. */
  datatype Cell = Cell(active: bool, kind: VoxelKind)

  /** A chunk of WIDTH³ voxels, index x*16 + y*4 + z. */
  type Grid = g: seq<Cell> | |g| == WIDTH * WIDTH * WIDTH witness seq(64, _ => Cell(false, Default))

  function CellAt(g: Grid, x: nat, y: nat, z: nat): Cell
    requires x < WIDTH && y < WIDTH && z < WIDTH
  {
    g[x * 16 + y * 4 + z]
  }

  /** `VoxelFace`: what one face of a voxel looks like. */
  datatype VoxelFace = VoxelFace(transparent: bool, kind: VoxelKind, side: nat)

  /** `VoxelFace::equals`: same transparency and kind; the side is ignored. */
  predicate FaceEquals(a: VoxelFace, b: VoxelFace)
  {
    a.transparent == b.transparent && a.kind == b.kind
  }

  /** `equals` is an equivalence relation, and faces differing only in side are equal. */
  lemma FaceEqualsIsEquivalence(a: VoxelFace, b: VoxelFace, c: VoxelFace)
    ensures FaceEquals(a, a)
    ensures FaceEquals(a, b) ==> FaceEquals(b, a)
    ensures FaceEquals(a, b) && FaceEquals(b, c) ==> FaceEquals(a, c)
    ensures FaceEquals(a, a.(side := b.side))
  {
  }

  /** A coordinate that is neither the first nor the last of its axis. */
  predicate Inner(v: nat)
  {
    v != 0 && v != MAX_INDEX
  }

  /** All six neighbours of an inner voxel are active. */
  predicate Enclosed(g: Grid, x: nat, y: nat, z: nat)
    requires Inner(x) && Inner(y) && Inner(z) && x < WIDTH && y < WIDTH && z < WIDTH
  {
    && CellAt(g, x, y, z - 1).active
    && CellAt(g, x, y + 1, z).active && CellAt(g, x, y - 1, z).active
    && CellAt(g, x + 1, y, z).active && CellAt(g, x - 1, y, z).active
    && CellAt(g, x, y, z + 1).active
  }

  /**
   `get_voxel_face`: an inactive voxel's face is transparent; so is an
   active inner voxel's whose six neighbours are all active.
   */
  function GetVoxelFace(g: Grid, x: nat, y: nat, z: nat, side: nat): (f: VoxelFace)
    requires x < WIDTH && y < WIDTH && z < WIDTH
    ensures f.kind == CellAt(g, x, y, z).kind && f.side == side
    ensures !CellAt(g, x, y, z).active ==> f.transparent
    ensures !(Inner(x) && Inner(y) && Inner(z)) ==> (f.transparent <==> !CellAt(g, x, y, z).active)
    ensures f.transparent && CellAt(g, x, y, z).active ==> Inner(x) && Inner(y) && Inner(z) && Enclosed(g, x, y, z)
    ensures Inner(x) && Inner(y) && Inner(z) && CellAt(g, x, y, z).active && Enclosed(g, x, y, z) ==> f.transparent
  {
    var voxel := CellAt(g, x, y, z);
    var transparent := !voxel.active;
    var culled :=
      if Inner(x) && Inner(y) && Inner(z) then !transparent && Enclosed(g, x, y, z) else false;
    VoxelFace(transparent || culled, voxel.kind, side)
  }

  const SOUTH: nat := 0
  const NORTH: nat := 1
  const EAST: nat := 2
  const WEST: nat := 3
  const TOP: nat := 4
  const BOTTOM: nat := 5

  /** The side a sweep along axis `d` meshes; the backface pass takes the opposite side. */
  function Side(d: nat, backface: bool): nat
    requires d < 3
  {
    if d == 0 then (if backface then WEST else EAST)
    else if d == 1 then (if backface then BOTTOM else TOP)
    else (if backface then SOUTH else NORTH)
  }

  /** The six passes mesh six different sides, and every side is meshed by some pass. */
  lemma SidesDistinct(d1: nat, b1: bool, d2: nat, b2: bool)
    requires d1 < 3 && d2 < 3
    ensures Side(d1, b1) == Side(d2, b2) ==> d1 == d2 && b1 == b2
    ensures Side(d1, b1) < 6
  {
  }

  /** The two axes spanning a slice across axis `d`. */
  function U(d: nat): nat { (d + 1) % 3 }
  function V(d: nat): nat { (d + 2) % 3 }

  /** For each sweep axis, it and its two slice axes are the three axes. */
  lemma AxesArePermutation(d: nat)
    requires d < 3
    ensures {d, U(d), V(d)} == {0, 1, 2}
    ensures d != U(d) && d != V(d) && U(d) != V(d)
  {
  }

  /**
   The working vector `x` of the sweep: `x[d] = a`, `x[u] = i`, `x[v] = j`,
   as (x, y, z).
   */
  function Point(d: nat, a: int, i: int, j: int): (p: seq<int>)
    requires d < 3
    ensures |p| == 3
  {
    [0, 0, 0][d := a][U(d) := i][V(d) := j]
  }

  /** The same point, written out per axis. */
  lemma PointByAxis(d: nat, a: int, i: int, j: int)
    requires d < 3
    ensures d == 0 ==> Point(d, a, i, j) == [a, i, j]
    ensures d == 1 ==> Point(d, a, i, j) == [j, a, i]
    ensures d == 2 ==> Point(d, a, i, j) == [i, j, a]
  {
  }

  /** The face of the voxel at slice position `a`, row `j`, column `i` of a sweep. */
  function FaceAt(g: Grid, d: nat, a: nat, i: nat, j: nat, side: nat): VoxelFace
    requires d < 3 && a < WIDTH && i < WIDTH && j < WIDTH
  {
    var p := Point(d, a, i, j);
    GetVoxelFace(g, p[0] as nat, p[1] as nat, p[2] as nat, side)
  }

  /**
   One cell of the mask for slice `slice` (from -1 to WIDTH-1) of the sweep
   along `d`: the face on the near side of the slice boundary exists when the
   slice is not -1, the face on the far side when it is not the last.
   */
  function MaskCell(g: Grid, d: nat, slice: int, backface: bool, i: nat, j: nat): Option<VoxelFace>
    requires d < 3 && -1 <= slice < WIDTH && i < WIDTH && j < WIDTH
  {
    var side := Side(d, backface);
    var near := if slice >= 0 then Some(FaceAt(g, d, slice as nat, i, j, side)) else None;
    var far := if slice < WIDTH - 1 then Some(FaceAt(g, d, (slice + 1) as nat, i, j, side)) else None;
    if near.Some? && far.Some? && FaceEquals(near.value, far.value) then None
    else if backface then far
    else near
  }

  /**
   A mask cell is empty exactly when both faces exist and are equal, or the
   face the pass keeps does not exist; otherwise it is that face: the far one
   on the backface pass, the near one on the front pass.
   */
  lemma MaskCellCases(g: Grid, d: nat, slice: int, backface: bool, i: nat, j: nat)
    requires d < 3 && -1 <= slice < WIDTH && i < WIDTH && j < WIDTH
    ensures var c := MaskCell(g, d, slice, backface, i, j);
      var side := Side(d, backface);
      && (0 <= slice < WIDTH - 1 ==>
            (c.None? <==> FaceEquals(FaceAt(g, d, slice as nat, i, j, side), FaceAt(g, d, (slice + 1) as nat, i, j, side))))
      && (slice == -1 ==> c == if backface then Some(FaceAt(g, d, 0, i, j, side)) else None)
      && (slice == WIDTH - 1 ==> c == if backface then None else Some(FaceAt(g, d, MAX_INDEX, i, j, side)))
      && (c.Some? && backface ==> slice < WIDTH - 1 && c.value == FaceAt(g, d, (slice + 1) as nat, i, j, side))
      && (c.Some? && !backface ==> slice >= 0 && c.value == FaceAt(g, d, slice as nat, i, j, side))
  {
  }

  /** The mask of one slice: WIDTH×WIDTH cells, index j*WIDTH + i. */
  type Mask = m: seq<Option<VoxelFace>> | |m| == WIDTH * WIDTH witness seq(16, _ => None)

  function At(m: Mask, i: nat, j: nat): Option<VoxelFace>
    requires i < WIDTH && j < WIDTH
  {
    m[j * WIDTH + i]
  }

  /** Two masks with the same cells are the same mask. */
  lemma SameCellsSameMask(a: Mask, b: Mask)
    requires forall i: nat, j: nat :: i < WIDTH && j < WIDTH ==> At(a, i, j) == At(b, i, j)
    ensures a == b
  {
    forall k | 0 <= k < WIDTH * WIDTH
      ensures a[k] == b[k]
    {
      assert At(a, k % WIDTH, k / WIDTH) == At(b, k % WIDTH, k / WIDTH);
    }
  }

  /** The first `n` values of `f`, in order. */
  function Tabulate(f: nat -> Option<VoxelFace>, n: nat): (cells: seq<Option<VoxelFace>>)
    ensures |cells| == n
  {
    if n == 0 then [] else Tabulate(f, n - 1) + [f(n - 1)]
  }

  lemma {:induction false} TabulateAt(f: nat -> Option<VoxelFace>, n: nat, k: nat)
    requires k < n
    ensures Tabulate(f, n)[k] == f(k)
    decreases n
  {
    if k < n - 1 {
      TabulateAt(f, n - 1, k);
    }
  }

  /** Cell k of the mask of one slice, in index order: column k % WIDTH, row k / WIDTH. */
  function CellOf(g: Grid, d: nat, slice: int, backface: bool): nat -> Option<VoxelFace>
    requires d < 3 && -1 <= slice < WIDTH
  {
    (k: nat) => if k < WIDTH * WIDTH then MaskCell(g, d, slice, backface, k % WIDTH, k / WIDTH) else None
  }

  /** The first `n` cells of the mask of one slice, in index order. */
  function MaskCells(g: Grid, d: nat, slice: int, backface: bool, n: nat): (cells: seq<Option<VoxelFace>>)
    requires d < 3 && -1 <= slice < WIDTH && n <= WIDTH * WIDTH
    ensures |cells| == n
  {
    if n == 0 then []
    else MaskCells(g, d, slice, backface, n - 1) + [MaskCell(g, d, slice, backface, (n - 1) % WIDTH, (n - 1) / WIDTH)]
  }

  lemma {:induction false} MaskCellsTabulate(g: Grid, d: nat, slice: int, backface: bool, n: nat)
    requires d < 3 && -1 <= slice < WIDTH && n <= WIDTH * WIDTH
    ensures MaskCells(g, d, slice, backface, n) == Tabulate(CellOf(g, d, slice, backface), n)
    decreases n
  {
    if n > 0 {
      MaskCellsTabulate(g, d, slice, backface, n - 1);
    }
  }

  /** The mask of one slice as a value. */
  function MaskOf(g: Grid, d: nat, slice: int, backface: bool): Mask
    requires d < 3 && -1 <= slice < WIDTH
  {
    MaskCells(g, d, slice, backface, WIDTH * WIDTH)
  }

  /** Cell (i, j) of the mask of a slice is `MaskCell` of that position. */
  lemma MaskOfCells(g: Grid, d: nat, slice: int, backface: bool)
    requires d < 3 && -1 <= slice < WIDTH
    ensures forall i: nat, j: nat :: i < WIDTH && j < WIDTH ==> At(MaskOf(g, d, slice, backface), i, j) == MaskCell(g, d, slice, backface, i, j)
  {
    forall i: nat, j: nat | i < WIDTH && j < WIDTH
      ensures At(MaskOf(g, d, slice, backface), i, j) == MaskCell(g, d, slice, backface, i, j)
    {
      CellPosition(i, j);
      MaskCellsTabulate(g, d, slice, backface, WIDTH * WIDTH);
      TabulateAt(CellOf(g, d, slice, backface), WIDTH * WIDTH, j * WIDTH + i);
    }
  }

  /** Cell (i, j) sits at position j·WIDTH + i, from which its column and row are read back. */
  lemma CellPosition(i: nat, j: nat)
    requires i < WIDTH
    ensures (j * WIDTH + i) % WIDTH == i && (j * WIDTH + i) / WIDTH == j
  {
    CbMath.DivModUnique(j * WIDTH + i, WIDTH, j, i);
  }

  /** Distinct cells of a mask have distinct indices. */
  lemma CellsDistinct(i: nat, j: nat, i2: nat, j2: nat)
    requires i < WIDTH && i2 < WIDTH
    ensures j * WIDTH + i == j2 * WIDTH + i2 ==> i == i2 && j == j2
  {
    CellPosition(i, j);
    CellPosition(i2, j2);
  }

  /** Cell (i, j) comes before (i', j') in the sweep's row-major order. */
  predicate Before(i: nat, j: nat, i': nat, j': nat)
  {
    j < j' || (j == j' && i < i')
  }

  /** The mask computation of one slice: every cell is overwritten, rows of `v` outer, `u` inner. */
  method ComputeMask(g: Grid, d: nat, slice: int, backface: bool) returns (mask: Mask)
    requires d < 3 && -1 <= slice < WIDTH
    ensures forall i: nat, j: nat :: i < WIDTH && j < WIDTH ==> At(mask, i, j) == MaskCell(g, d, slice, backface, i, j)
    ensures mask == MaskOf(g, d, slice, backface)
  {
    mask := seq(16, _ => None);
    var j := 0;
    while j < WIDTH
      invariant 0 <= j <= WIDTH
      invariant forall a: nat, b: nat :: a < WIDTH && b < j ==> At(mask, a, b) == MaskCell(g, d, slice, backface, a, b)
    {
      var i := 0;
      while i < WIDTH
        invariant 0 <= i <= WIDTH
        invariant forall a: nat, b: nat :: a < WIDTH && b < j ==> At(mask, a, b) == MaskCell(g, d, slice, backface, a, b)
        invariant forall a: nat :: a < i ==> At(mask, a, j) == MaskCell(g, d, slice, backface, a, j)
      {
        mask := mask[j * WIDTH + i := MaskCell(g, d, slice, backface, i, j)];
        i := i + 1;
      }
      j := j + 1;
    }
    MaskOfCells(g, d, slice, backface);
    SameCellsSameMask(mask, MaskOf(g, d, slice, backface));
  }
}
