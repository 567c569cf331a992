/**
 The quads of the greedy mesher and the whole sweep of `calculate_greedy_mesh`:
 two passes (backface first), three axes each, slices from -1 to the last,
 one quad per non-transparent rectangle, merged into one mesh.

 Vertex values are the integer corner coordinates times VOXEL_SIZE (1.0),
 kept as reals. `get_quad` builds its mesh without normals; the model gives
 it an empty normal array of size 3, the size every other mesh uses.
 */
module GreedyMesher {
  import opened Base
  import opened GreedyFaces
  import opened GreedyRects
  import Meshes
  import CbMath

  function Add(p: seq<int>, q: seq<int>): (r: seq<int>)
    requires |p| == 3 && |q| == 3
    ensures |r| == 3
  {
    [p[0] + q[0], p[1] + q[1], p[2] + q[2]]
  }

  /** The vector with `n` on axis `axis` and 0 elsewhere (`du` and `dv` of the source). */
  function Along(axis: nat, n: int): (r: seq<int>)
    requires axis < 3
    ensures |r| == 3
  {
    [0, 0, 0][axis := n]
  }

  /** The four corners handed to `get_quad`. */
  datatype Corners = Corners(bottomLeft: seq<int>, topLeft: seq<int>, topRight: seq<int>, bottomRight: seq<int>)

  predicate ValidCorners(c: Corners)
  {
    |c.bottomLeft| == 3 && |c.topLeft| == 3 && |c.topRight| == 3 && |c.bottomRight| == 3
  }

  /**
   The corners of the quad for rectangle `r` of slice `slice`: the quad lies
   on the plane `x[d] = slice + 1`, spanned by `du = w` along `u` and `dv = h`
   along `v`.
   */
  function QuadCorners(d: nat, slice: int, r: Rect): (c: Corners)
    requires d < 3
    ensures ValidCorners(c)
  {
    var x := Point(d, slice + 1, r.i, r.j);
    var du := Along(U(d), r.w);
    var dv := Along(V(d), r.h);
    Corners(x, Add(x, du), Add(Add(x, du), dv), Add(x, dv))
  }

  /** The quad's corners are exactly the rectangle's four corners on the slice plane. */
  lemma QuadCornersSpanRect(d: nat, slice: int, r: Rect)
    requires d < 3
    ensures QuadCorners(d, slice, r).bottomLeft == Point(d, slice + 1, r.i, r.j)
    ensures QuadCorners(d, slice, r).topLeft == Point(d, slice + 1, r.i + r.w, r.j)
    ensures QuadCorners(d, slice, r).topRight == Point(d, slice + 1, r.i + r.w, r.j + r.h)
    ensures QuadCorners(d, slice, r).bottomRight == Point(d, slice + 1, r.i, r.j + r.h)
  {
  }

  /** The RGB colour `get_quad` gives each voxel kind. */
  function KindColor(k: VoxelKind): (c: seq<real>)
    ensures |c| == 3
  {
    match k
    case Default => [1.0, 0.0, 0.0]
    case Dirt => [0.23, 0.168, 0.086]
    case Grass => [0.0, 1.0, 0.0]
    case _ => [0.0, 0.0, 1.0]
  }

  const BACKFACE_INDICES: seq<int> := [2, 0, 1, 1, 3, 2]
  const FRONT_INDICES: seq<int> := [2, 3, 1, 1, 0, 2]

  /** The front pass winds each triangle the other way: its order is the backface order with corners 0 and 3 exchanged. */
  lemma FrontWindingIsReversed()
    ensures |FRONT_INDICES| == |BACKFACE_INDICES| == 6
    ensures forall k :: 0 <= k < 6 ==>
      FRONT_INDICES[k] == (if BACKFACE_INDICES[k] == 0 then 3 else if BACKFACE_INDICES[k] == 3 then 0 else BACKFACE_INDICES[k])
  {
  }

  function ToReals(p: seq<int>): (r: seq<real>)
    ensures |r| == |p| && forall k :: 0 <= k < |p| ==> r[k] == p[k] as real
  {
    seq(|p|, k requires 0 <= k < |p| => p[k] as real)
  }

  /** `count` values repeating the RGB triple `c`. */
  function Repeat(c: seq<real>, count: nat): (r: seq<real>)
    requires |c| == 3
    ensures |r| == count && forall k :: 0 <= k < count ==> r[k] == c[k % 3]
  {
    seq(count, k requires 0 <= k < count => c[k % 3])
  }

  /** The shape every quad has: four 3-value vertices, two triangles over them, one frame. */
  predicate IsQuad(m: Meshes.Mesh, frame: nat)
  {
    && m.vertexSize == 3 && m.colorVertexSize == 3 && m.normalVertexSize == 3
    && |m.vertices| == 12 && |m.indices| == 6
    && (forall k :: 0 <= k < 6 ==> 0 <= m.indices[k] < 4)
    && m.generatedAtFrame == frame
  }

  /**
   `get_quad`: vertices in the order bottom-left, bottom-right, top-left,
   top-right; the winding of the pass; three copies of the kind's colour.
   */
  function GetQuad(c: Corners, w: nat, h: nat, face: VoxelFace, backface: bool, frame: nat): (m: Meshes.Mesh)
    requires ValidCorners(c)
    ensures IsQuad(m, frame)
    ensures m.vertices[0..3] == ToReals(c.bottomLeft) && m.vertices[3..6] == ToReals(c.bottomRight)
    ensures m.vertices[6..9] == ToReals(c.topLeft) && m.vertices[9..12] == ToReals(c.topRight)
    ensures m.indices == if backface then BACKFACE_INDICES else FRONT_INDICES
    ensures |m.colors| == 9 && forall k :: 0 <= k < 9 ==> m.colors[k] == KindColor(face.kind)[k % 3]
    ensures m.normals == []
  {
    var vertices := ToReals(c.bottomLeft) + ToReals(c.bottomRight) + ToReals(c.topLeft) + ToReals(c.topRight);
    var indices := if backface then BACKFACE_INDICES else FRONT_INDICES;
    Meshes.Mesh(indices, 3, vertices, Repeat(KindColor(face.kind), 9), 3, [], 3, frame)
  }

  /** The quad of rectangle `r` of a slice. */
  function QuadFor(d: nat, slice: int, backface: bool, frame: nat, r: Rect): Meshes.Mesh
    requires d < 3
  {
    GetQuad(QuadCorners(d, slice, r), r.w, r.h, r.face, backface, frame)
  }

  /** The quads of one slice's rectangles, in order, skipping transparent ones. */
  function SliceQuads(rects: seq<Rect>, d: nat, slice: int, backface: bool, frame: nat): (qs: seq<Meshes.Mesh>)
    requires d < 3
    ensures |qs| <= |rects|
    ensures forall k :: 0 <= k < |qs| ==> IsQuad(qs[k], frame)
  {
    if |rects| == 0 then []
    else
      var init := rects[..|rects| - 1];
      var rest := SliceQuads(init, d, slice, backface, frame);
      assert forall q :: 0 <= q < |init| ==> init[q] == rects[q];
      var r := rects[|rects| - 1];
      if r.face.transparent then rest else rest + [QuadFor(d, slice, backface, frame, r)]
  }

  /** Every quad of a slice is the quad of one of its non-transparent rectangles. */
  lemma {:induction false} SliceQuadsFromOpaqueRects(rects: seq<Rect>, d: nat, slice: int, backface: bool, frame: nat, k: nat)
    requires d < 3 && k < |SliceQuads(rects, d, slice, backface, frame)|
    ensures exists q ::
      && 0 <= q < |rects| && !rects[q].face.transparent
      && SliceQuads(rects, d, slice, backface, frame)[k] == QuadFor(d, slice, backface, frame, rects[q])
    decreases |rects|
  {
    var init, last := rects[..|rects| - 1], rects[|rects| - 1];
    var rest := SliceQuads(init, d, slice, backface, frame);
    var all := SliceQuads(rects, d, slice, backface, frame);
    assert all == if last.face.transparent then rest else rest + [QuadFor(d, slice, backface, frame, last)];
    if k < |rest| {
      SliceQuadsFromOpaqueRects(init, d, slice, backface, frame, k);
      var q :| 0 <= q < |init| && !init[q].face.transparent && rest[k] == QuadFor(d, slice, backface, frame, init[q]);
      assert init[q] == rects[q] && all[k] == rest[k];
    } else {
      assert !last.face.transparent && all[k] == QuadFor(d, slice, backface, frame, rects[|rects| - 1]);
    }
  }

  /** Every non-transparent rectangle of a slice has its quad among the slice's quads. */
  lemma {:induction false} OpaqueRectsGiveQuads(rects: seq<Rect>, d: nat, slice: int, backface: bool, frame: nat, q: nat)
    requires d < 3 && q < |rects| && !rects[q].face.transparent
    ensures QuadFor(d, slice, backface, frame, rects[q]) in SliceQuads(rects, d, slice, backface, frame)
    decreases |rects|
  {
    var init, last := rects[..|rects| - 1], rects[|rects| - 1];
    var rest := SliceQuads(init, d, slice, backface, frame);
    var all := SliceQuads(rects, d, slice, backface, frame);
    assert all == if last.face.transparent then rest else rest + [QuadFor(d, slice, backface, frame, last)];
    if q < |init| {
      assert init[q] == rects[q];
      OpaqueRectsGiveQuads(init, d, slice, backface, frame, q);
    }
  }

  /** Transparent rectangles produce no quad: a slice of only transparent rectangles adds nothing. */
  lemma {:induction false} TransparentRectsGiveNoQuads(rects: seq<Rect>, d: nat, slice: int, backface: bool, frame: nat)
    requires d < 3
    requires forall q :: 0 <= q < |rects| ==> rects[q].face.transparent
    ensures SliceQuads(rects, d, slice, backface, frame) == []
    decreases |rects|
  {
    if |rects| > 0 {
      var init := rects[..|rects| - 1];
      assert forall q :: 0 <= q < |init| ==> init[q] == rects[q];
      TransparentRectsGiveNoQuads(init, d, slice, backface, frame);
    }
  }

  /**
   The quads of slice `slice` of axis `d` in one pass: the quads of the
   rectangles the greedy sweep finds in the slice's face mask.
   */
  function QuadsOfSlice(g: Grid, d: nat, slice: int, backface: bool, frame: nat): (qs: seq<Meshes.Mesh>)
    requires d < 3 && -1 <= slice < WIDTH
    ensures forall k :: 0 <= k < |qs| ==> IsQuad(qs[k], frame)
  {
    SliceQuads(Sweep(MaskOf(g, d, slice, backface)).0, d, slice, backface, frame)
  }

  /**
   Every opaque face the mask of a slice shows is meshed exactly once: it lies
   in exactly one of the rectangles the sweep finds, a rectangle of an equal
   face whose quad is among the slice's quads.
   */
  lemma OpaqueFacesMeshedOnce(g: Grid, d: nat, slice: int, backface: bool, frame: nat, i: nat, j: nat) returns (r: Rect)
    requires d < 3 && -1 <= slice < WIDTH && i < WIDTH && j < WIDTH
    requires MaskCell(g, d, slice, backface, i, j).Some? && !MaskCell(g, d, slice, backface, i, j).value.transparent
    ensures var rects := Sweep(MaskOf(g, d, slice, backface)).0;
      && r in rects && InRect(r, i, j) && FaceEquals(r.face, MaskCell(g, d, slice, backface, i, j).value)
      && (forall q :: 0 <= q < |rects| && InRect(rects[q], i, j) ==> rects[q] == r)
      && QuadFor(d, slice, backface, frame, r) in QuadsOfSlice(g, d, slice, backface, frame)
  {
    var m := MaskOf(g, d, slice, backface);
    MaskOfCells(g, d, slice, backface);
    var rects := Sweep(m).0;
    var q := SweepCoversOnce(m, i, j);
    r := rects[q];
    OpaqueRectsGiveQuads(rects, d, slice, backface, frame, q);
  }

  /** The quads of axis `d` in one pass: the first `count` slices, from slice -1 on, in order. */
  function QuadsOfAxis(g: Grid, d: nat, backface: bool, frame: nat, count: nat): (qs: seq<Meshes.Mesh>)
    requires d < 3 && count <= WIDTH + 1
    ensures forall k :: 0 <= k < |qs| ==> IsQuad(qs[k], frame)
  {
    if count == 0 then []
    else QuadsOfAxis(g, d, backface, frame, count - 1) + QuadsOfSlice(g, d, count - 2, backface, frame)
  }

  /** The quads of one pass, axes 0 up to (not including) `upTo`, in order. */
  function QuadsOfPass(g: Grid, backface: bool, frame: nat, upTo: nat): (qs: seq<Meshes.Mesh>)
    requires upTo <= 3
    ensures forall k :: 0 <= k < |qs| ==> IsQuad(qs[k], frame)
  {
    if upTo == 0 then []
    else QuadsOfPass(g, backface, frame, upTo - 1) + QuadsOfAxis(g, upTo - 1, backface, frame, WIDTH + 1)
  }

  /** The quads of the first `upTo` passes: the first pass draws back faces, the second front faces. */
  function QuadsOfPasses(g: Grid, frame: nat, upTo: nat): (qs: seq<Meshes.Mesh>)
    requires upTo <= 2
    ensures forall k :: 0 <= k < |qs| ==> IsQuad(qs[k], frame)
  {
    if upTo == 0 then []
    else QuadsOfPasses(g, frame, upTo - 1) + QuadsOfPass(g, upTo - 1 == 0, frame, 3)
  }

  /** The greedy mesh of a chunk: the quads of both passes, merged. */
  function GreedyMesh(g: Grid, frame: nat): Meshes.Mesh
  {
    Meshes.Merged(QuadsOfPasses(g, frame, 2), frame)
  }

  /** One slice of `calculate_greedy_mesh`: the face mask, its rectangles, and their quads. */
  method SliceStep(g: Grid, d: nat, slice: int, backface: bool, frame: nat) returns (quads: seq<Meshes.Mesh>)
    requires d < 3 && -1 <= slice < WIDTH
    ensures quads == QuadsOfSlice(g, d, slice, backface, frame)
  {
    var mask := ComputeMask(g, d, slice, backface);
    var rects, _ := GreedySlice(mask);
    quads := SliceQuads(rects, d, slice, backface, frame);
  }

  /** The quads of one more slice extend the quads of an axis by that slice's. */
  lemma AxisStep(g: Grid, d: nat, backface: bool, frame: nat, count: nat, quads: seq<Meshes.Mesh>, sliceQuads: seq<Meshes.Mesh>)
    requires d < 3 && count < WIDTH + 1
    requires quads == QuadsOfAxis(g, d, backface, frame, count)
    requires sliceQuads == QuadsOfSlice(g, d, count - 1, backface, frame)
    ensures quads + sliceQuads == QuadsOfAxis(g, d, backface, frame, count + 1)
  {
  }

  /** The body of the slice loop: slice `count - 1`'s quads appended to those of the slices before it. */
  method AppendSlice(g: Grid, d: nat, backface: bool, frame: nat, count: nat, quads: seq<Meshes.Mesh>) returns (quads': seq<Meshes.Mesh>)
    requires d < 3 && count < WIDTH + 1
    requires quads == QuadsOfAxis(g, d, backface, frame, count)
    ensures quads' == QuadsOfAxis(g, d, backface, frame, count + 1)
  {
    var sliceQuads := SliceStep(g, d, count - 1, backface, frame);
    AxisStep(g, d, backface, frame, count, quads, sliceQuads);
    quads' := quads + sliceQuads;
  }

  /** The slice loop of `calculate_greedy_mesh` for axis `d`: slices -1 to the last, in order. */
  method AxisQuads(g: Grid, d: nat, backface: bool, frame: nat) returns (quads: seq<Meshes.Mesh>)
    requires d < 3
    ensures quads == QuadsOfAxis(g, d, backface, frame, WIDTH + 1)
  {
    quads := [];
    var count: nat := 0;
    while count < WIDTH + 1
      invariant count <= WIDTH + 1
      invariant quads == QuadsOfAxis(g, d, backface, frame, count)
    {
      quads := AppendSlice(g, d, backface, frame, count, quads);
      count := count + 1;
    }
  }

  /** The axis loop of one pass of `calculate_greedy_mesh`. */
  method PassQuads(g: Grid, backface: bool, frame: nat) returns (quads: seq<Meshes.Mesh>)
    ensures quads == QuadsOfPass(g, backface, frame, 3)
  {
    quads := [];
    var d := 0;
    while d < 3
      invariant 0 <= d <= 3
      invariant quads == QuadsOfPass(g, backface, frame, d)
    {
      var axis := AxisQuads(g, d, backface, frame);
      quads := quads + axis;
      d := d + 1;
    }
  }

  /**
   `calculate_greedy_mesh`: the quads of every slice of every sweep, merged;
   the result is the chunk's greedy mesh. It carries `frame`, and every index
   names one of its vertices.
   */
  method CalculateGreedyMesh(g: Grid, frame: nat) returns (mesh: Meshes.Mesh)
    ensures mesh.vertexSize == 3 && mesh.colorVertexSize == 3 && mesh.normalVertexSize == 3
    ensures mesh.generatedAtFrame == frame
    ensures |mesh.vertices| == 2 * |mesh.indices|
    ensures forall k :: 0 <= k < |mesh.indices| ==> 0 <= mesh.indices[k] < |mesh.vertices| / 3
    ensures mesh == GreedyMesh(g, frame)
  {
    var quads: seq<Meshes.Mesh> := [];
    var backface := false;
    var pass := 0;
    while pass < 2
      invariant 0 <= pass <= 2 && backface == (pass == 1)
      invariant quads == QuadsOfPasses(g, frame, pass)
    {
      backface := !backface;
      var passQuads := PassQuads(g, backface, frame);
      quads := quads + passQuads;
      pass := pass + 1;
    }
    var merged := Meshes.Merge(quads, frame);
    if merged.Fail? {
      assert Meshes.SizesAgree(quads);
      assert false;
    }
    mesh := merged.value;
    GreedyMeshShape(quads, frame, mesh);
  }

  /** The merge of quads of one frame has the shape `calculate_greedy_mesh` promises. */
  lemma GreedyMeshShape(quads: seq<Meshes.Mesh>, frame: nat, mesh: Meshes.Mesh)
    requires forall k :: 0 <= k < |quads| ==> IsQuad(quads[k], frame)
    requires mesh == Meshes.Merged(quads, frame)
    ensures mesh.vertexSize == 3 && mesh.colorVertexSize == 3 && mesh.normalVertexSize == 3
    ensures mesh.generatedAtFrame == frame
    ensures |mesh.vertices| == 2 * |mesh.indices|
    ensures forall k :: 0 <= k < |mesh.indices| ==> 0 <= mesh.indices[k] < |mesh.vertices| / 3
  {
    Meshes.MergedIndicesInRange(quads);
    Meshes.ConcatLength(quads, Meshes.Vertices, 12);
    Meshes.VertexTotalUniform(quads, 4);
    Meshes.MergedIndicesLength(quads);
    IndexTotalOfQuads(quads, frame);
    if |quads| > 0 {
      Meshes.MaxFrameUniform(quads, frame);
    }
    assert |mesh.vertices| / 3 == 4 * |quads|;
    forall k | 0 <= k < |mesh.indices|
      ensures 0 <= mesh.indices[k] < |mesh.vertices| / 3
    {
      assert mesh.indices[k] in Meshes.MergedIndices(quads);
    }
  }

  lemma {:induction false} IndexTotalOfQuads(qs: seq<Meshes.Mesh>, frame: nat)
    requires forall k :: 0 <= k < |qs| ==> IsQuad(qs[k], frame)
    ensures Meshes.IndexTotal(qs) == 6 * |qs|
    decreases |qs|
  {
    if |qs| > 0 {
      var init := qs[..|qs| - 1];
      assert forall k :: 0 <= k < |init| ==> init[k] == qs[k];
      IndexTotalOfQuads(init, frame);
    }
  }

  /** The RGB values OpenGL reads for vertex `v` of a mesh: the `v`-th triple of its colour array. */
  function ColorOfVertex(colors: seq<real>, v: nat): seq<real>
    requires 3 * v + 3 <= |colors|
  {
    colors[3 * v .. 3 * v + 3]
  }

  /**
   As written, a quad carries three colour triples for its four vertices, so
   in a merged mesh the fourth vertex of the first quad reads the colour of
   the quad after it, and the second quad's fourth vertex has no colour at all.
   */
  lemma QuadColorsMisaligned(c: Corners, first: VoxelFace, second: VoxelFace, backface: bool, frame: nat)
    requires ValidCorners(c)
    ensures var colors := Meshes.Concat([GetQuad(c, 1, 1, first, backface, frame), GetQuad(c, 1, 1, second, backface, frame)], Meshes.Colors);
      && |colors| == 18 < 3 * 8
      && ColorOfVertex(colors, 3) == KindColor(second.kind)
  {
    var a := GetQuad(c, 1, 1, first, backface, frame);
    var b := GetQuad(c, 1, 1, second, backface, frame);
    ConcatTwo(a, b);
    RepeatedFirstTriple(b.colors, KindColor(second.kind));
    assert (a.colors + b.colors)[9..12] == b.colors[0..3];
  }

  /** The colours of two merged meshes are the first mesh's followed by the second's. */
  lemma ConcatTwo(a: Meshes.Mesh, b: Meshes.Mesh)
    ensures Meshes.Concat([a, b], Meshes.Colors) == a.colors + b.colors
  {
    var ab := [a, b];
    assert ab[..|ab| - 1] == [a] && ab[|ab| - 1] == b;
    assert [a][..0] == [];
    assert Meshes.Concat([a], Meshes.Colors) == a.colors;
  }

  /** Nine values repeating one triple start with that triple. */
  lemma RepeatedFirstTriple(colors: seq<real>, c: seq<real>)
    requires |c| == 3 && |colors| == 9
    requires forall k :: 0 <= k < 9 ==> colors[k] == c[k % 3]
    ensures colors[0..3] == c
  {
    assert colors[0] == c[0] && colors[1] == c[1] && colors[2] == c[2];
  }

  /** Grass and dirt quads have different colours, so the misplaced colour is visible. */
  lemma GrassAndDirtDiffer()
    ensures KindColor(Grass) != KindColor(Dirt)
  {
    assert KindColor(Grass)[1] != KindColor(Dirt)[1];
  }

  /** `get_quad` with one colour triple per vertex: twelve colour values. */
  function GetQuadIntended(c: Corners, w: nat, h: nat, face: VoxelFace, backface: bool, frame: nat): (m: Meshes.Mesh)
    requires ValidCorners(c)
    ensures IsQuad(m, frame) && |m.colors| == 12
    ensures forall v :: 0 <= v < 4 ==> ColorOfVertex(m.colors, v) == KindColor(face.kind)
  {
    var m := GetQuad(c, w, h, face, backface, frame);
    var colors := Repeat(KindColor(face.kind), 12);
    forall v | 0 <= v < 4
      ensures ColorOfVertex(colors, v) == KindColor(face.kind)
    {
      RepeatedTriple(KindColor(face.kind), 12, v);
    }
    m.(colors := colors)
  }

  /** Every whole triple of a repeated triple is that triple. */
  lemma RepeatedTriple(c: seq<real>, count: nat, v: nat)
    requires |c| == 3 && 3 * v + 3 <= count
    ensures Repeat(c, count)[3 * v .. 3 * v + 3] == c
  {
    var r := Repeat(c, count);
    var i := 3 * v;
    CbMath.DivModUnique(i, 3, v, 0);
    CbMath.DivModUnique(i + 1, 3, v, 1);
    CbMath.DivModUnique(i + 2, 3, v, 2);
    assert r[i] == c[0] && r[i + 1] == c[1] && r[i + 2] == c[2];
    assert r[i .. i + 3] == [c[0], c[1], c[2]];
  }

  /**
   With one triple per vertex, every vertex of a merged list of quads reads the
   colour its own quad set: vertex `v` belongs to quad `v / 4`.
   */
  lemma {:induction false} IntendedColorsAligned(qs: seq<Meshes.Mesh>, v: nat)
    requires forall k :: 0 <= k < |qs| ==> |qs[k].colors| == 12
    requires v < 4 * |qs|
    ensures 3 * v + 3 <= |Meshes.Concat(qs, Meshes.Colors)|
    ensures ColorOfVertex(Meshes.Concat(qs, Meshes.Colors), v) == ColorOfVertex(qs[v / 4].colors, v % 4)
    decreases |qs|
  {
    var init := qs[..|qs| - 1];
    assert forall k :: 0 <= k < |init| ==> init[k] == qs[k];
    Meshes.ConcatLength(init, Meshes.Colors, 12);
    Meshes.ConcatLength(qs, Meshes.Colors, 12);
    var all := Meshes.Concat(qs, Meshes.Colors);
    assert all == Meshes.Concat(init, Meshes.Colors) + qs[|qs| - 1].colors;
    var n := |init|;
    if v < 4 * n {
      IntendedColorsAligned(init, v);
      CbMath.DivModUnique(v, 4, v / 4, v % 4);
      assert v / 4 < n && init[v / 4] == qs[v / 4];
    } else {
      var w := v - 4 * n;
      CbMath.DivModUnique(v, 4, n, w);
      var off := 3 * w;
      assert 3 * v == 12 * n + off;
      assert all[3 * v .. 3 * v + 3] == qs[|qs| - 1].colors[off .. off + 3];
    }
  }
}
