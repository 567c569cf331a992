/**
 `Mesh`: flat vertex, colour and normal arrays with an index list, and the
 merge that concatenates several meshes into one. Vertex, colour and normal
 values are kept as reals; merging never computes with them.
 */
module Meshes {
  import opened Base

  datatype Mesh = Mesh(
    indices: seq<int>,
    vertexSize: nat,
    vertices: seq<real>,
    colors: seq<real>,
    colorVertexSize: nat,
    normals: seq<real>,
    normalVertexSize: nat,
    generatedAtFrame: nat)

  /** The mesh `merge` starts from: no data, every vertex size 3. */
  function EmptyMesh(frame: nat): (m: Mesh)
    ensures m.vertexSize == 3 && m.colorVertexSize == 3 && m.normalVertexSize == 3
    ensures m.vertices == [] && m.indices == [] && m.colors == [] && m.normals == []
    ensures m.generatedAtFrame == frame
  {
    Mesh([], 3, [], [], 3, [], 3, frame)
  }

  /** `is_empty`: no vertices and no indices (colours and normals are not consulted). */
  predicate IsEmpty(m: Mesh)
  {
    |m.vertices| == 0 && |m.indices| == 0
  }

  /** The three per-vertex arrays a merge concatenates. */
  datatype Field = Vertices | Colors | Normals

  function Get(m: Mesh, f: Field): seq<real>
  {
    match f
    case Vertices => m.vertices
    case Colors => m.colors
    case Normals => m.normals
  }

  /** The in-order concatenation of one array of every mesh. */
  function Concat(ms: seq<Mesh>, f: Field): seq<real>
  {
    if |ms| == 0 then [] else Concat(ms[..|ms| - 1], f) + Get(ms[|ms| - 1], f)
  }

  /** The number of vertices of a mesh: values per vertex divide the array, 0 when the size is 0. */
  function VertexCount(m: Mesh): nat
  {
    if m.vertexSize != 0 then |m.vertices| / m.vertexSize else 0
  }

  /** The number of vertices of all meshes together. */
  function VertexTotal(ms: seq<Mesh>): nat
  {
    if |ms| == 0 then 0 else VertexTotal(ms[..|ms| - 1]) + VertexCount(ms[|ms| - 1])
  }

  /** The number of indices of all meshes together. */
  function IndexTotal(ms: seq<Mesh>): nat
  {
    if |ms| == 0 then 0 else IndexTotal(ms[..|ms| - 1]) + |ms[|ms| - 1].indices|
  }

  /** Every index moved up by `offset`. */
  function Shifted(indices: seq<int>, offset: int): (r: seq<int>)
    ensures |r| == |indices| && forall j :: 0 <= j < |indices| ==> r[j] == indices[j] + offset
  {
    seq(|indices|, j requires 0 <= j < |indices| => indices[j] + offset)
  }

  /** The merged index list: each mesh's indices moved past the vertices of the meshes before it. */
  function MergedIndices(ms: seq<Mesh>): seq<int>
  {
    if |ms| == 0 then []
    else MergedIndices(ms[..|ms| - 1]) + Shifted(ms[|ms| - 1].indices, VertexTotal(ms[..|ms| - 1]))
  }

  /** The latest `generated_at_frame` of the meshes, or 0 when there is none. */
  function MaxFrame(ms: seq<Mesh>): nat
  {
    if |ms| == 0 then 0
    else
      var before := MaxFrame(ms[..|ms| - 1]);
      if ms[|ms| - 1].generatedAtFrame > before then ms[|ms| - 1].generatedAtFrame else before
  }

  predicate SameSizes(a: Mesh, b: Mesh)
  {
    a.vertexSize == b.vertexSize && a.normalVertexSize == b.normalVertexSize && a.colorVertexSize == b.colorVertexSize
  }

  /** The condition under which `merge` does not panic: every mesh has the first mesh's three sizes. */
  predicate SizesAgree(ms: seq<Mesh>)
  {
    forall k :: 0 <= k < |ms| ==> SameSizes(ms[k], ms[0])
  }

  /** Every accumulated quantity of the first i + 1 meshes, in terms of the first i and mesh i. */
  /**
   The mesh `merge` returns when it does not panic: the arrays concatenated,
   the indices re-based, the first mesh's sizes (3 when there is none) and the
   latest frame, or `frame` when the result is empty.
   */
  function Merged(ms: seq<Mesh>, frame: nat): Mesh
  {
    var first := if |ms| > 0 then ms[0] else EmptyMesh(0);
    var vertices, indices := Concat(ms, Vertices), MergedIndices(ms);
    Mesh(indices, first.vertexSize, vertices, Concat(ms, Colors), first.colorVertexSize,
      Concat(ms, Normals), first.normalVertexSize,
      if |vertices| == 0 && |indices| == 0 then frame else MaxFrame(ms))
  }

  lemma PrefixStep(ms: seq<Mesh>, i: nat)
    requires i < |ms|
    ensures var p, q := ms[..i + 1], ms[..i];
      && Concat(p, Vertices) == Concat(q, Vertices) + ms[i].vertices
      && Concat(p, Colors) == Concat(q, Colors) + ms[i].colors
      && Concat(p, Normals) == Concat(q, Normals) + ms[i].normals
      && MergedIndices(p) == MergedIndices(q) + Shifted(ms[i].indices, VertexTotal(q))
      && VertexTotal(p) == VertexTotal(q) + VertexCount(ms[i])
      && MaxFrame(p) == if ms[i].generatedAtFrame > MaxFrame(q) then ms[i].generatedAtFrame else MaxFrame(q)
  {
    var p := ms[..i + 1];
    assert p[..i] == ms[..i] && p[i] == ms[i];
  }

  /**
   `Mesh::merge`: concatenates the meshes' arrays, re-bases their indices and
   keeps the latest frame; an empty result is stamped with `frame`.
   */
  method Merge(ms: seq<Mesh>, frame: nat) returns (r: Result<Mesh>)
    ensures r.Fail? <==> !SizesAgree(ms)
    ensures r.Fail? ==> r.fault == MeshSizesDiffer
    ensures r.Ok? ==> r.value.vertices == Concat(ms, Vertices)
    ensures r.Ok? ==> r.value.colors == Concat(ms, Colors)
    ensures r.Ok? ==> r.value.normals == Concat(ms, Normals)
    ensures r.Ok? ==> r.value.indices == MergedIndices(ms)
    ensures r.Ok? && |ms| > 0 ==> SameSizes(r.value, ms[0])
    ensures r.Ok? && |ms| == 0 ==> SameSizes(r.value, EmptyMesh(0))
    ensures r.Ok? ==> r.value.generatedAtFrame == if IsEmpty(r.value) then frame else MaxFrame(ms)
    ensures r.Ok? ==> r.value == Merged(ms, frame)
  {
    var mesh := EmptyMesh(0);
    var offset := 0;
    var i := 0;
    while i < |ms|
      invariant 0 <= i <= |ms|
      invariant i == 0 ==> SameSizes(mesh, EmptyMesh(0))
      invariant i > 0 ==> SameSizes(mesh, ms[0])
      invariant forall k :: 0 <= k < i ==> SameSizes(ms[k], ms[0])
      invariant mesh.vertices == Concat(ms[..i], Vertices)
      invariant mesh.colors == Concat(ms[..i], Colors)
      invariant mesh.normals == Concat(ms[..i], Normals)
      invariant mesh.indices == MergedIndices(ms[..i])
      invariant offset == VertexTotal(ms[..i])
      invariant mesh.generatedAtFrame == MaxFrame(ms[..i])
    {
      var m := ms[i];
      if i == 0 {
        mesh := mesh.(vertexSize := m.vertexSize, colorVertexSize := m.colorVertexSize, normalVertexSize := m.normalVertexSize);
      }
      if mesh.vertexSize != m.vertexSize || mesh.normalVertexSize != m.normalVertexSize || mesh.colorVertexSize != m.colorVertexSize {
        assert i > 0 && !SameSizes(ms[i], ms[0]);
        return Fail(MeshSizesDiffer);
      }
      PrefixStep(ms, i);
      mesh := mesh.(
        vertices := mesh.vertices + m.vertices,
        colors := mesh.colors + m.colors,
        normals := mesh.normals + m.normals,
        indices := mesh.indices + Shifted(m.indices, offset));
      if m.vertexSize != 0 {
        offset := offset + |m.vertices| / m.vertexSize;
      }
      if m.generatedAtFrame > mesh.generatedAtFrame {
        mesh := mesh.(generatedAtFrame := m.generatedAtFrame);
      }
      i := i + 1;
    }
    assert ms[..|ms|] == ms;
    assert SizesAgree(ms);
    if IsEmpty(mesh) {
      mesh := mesh.(generatedAtFrame := frame);
    }
    return Ok(mesh);
  }

  /** Merging no meshes yields an empty mesh with sizes 3/3/3 stamped with `frame`. */
  method MergeNothing(frame: nat) returns (r: Result<Mesh>)
    ensures r == Ok(EmptyMesh(frame))
  {
    r := Merge([], frame);
  }

  lemma {:induction false} IndexTotalMonotone(ms: seq<Mesh>, k: nat)
    requires k <= |ms|
    ensures IndexTotal(ms[..k]) <= IndexTotal(ms)
    decreases |ms|
  {
    if k < |ms| {
      assert ms[..|ms| - 1][..k] == ms[..k];
      IndexTotalMonotone(ms[..|ms| - 1], k);
    } else {
      assert ms[..k] == ms;
    }
  }

  /** The merged index list is as long as all input index lists together. */
  lemma {:induction false} MergedIndicesLength(ms: seq<Mesh>)
    ensures |MergedIndices(ms)| == IndexTotal(ms)
    decreases |ms|
  {
    if |ms| > 0 {
      MergedIndicesLength(ms[..|ms| - 1]);
    }
  }

  /**
   Index `j` of mesh `k` sits, in the merged list, after the indices of the
   meshes before `k`, raised by the number of vertices of those meshes.
   */
  lemma {:induction false} MergedIndicesLayout(ms: seq<Mesh>, k: nat, j: nat)
    requires k < |ms| && j < |ms[k].indices|
    ensures IndexTotal(ms[..k]) + j < |MergedIndices(ms)|
    ensures MergedIndices(ms)[IndexTotal(ms[..k]) + j] == ms[k].indices[j] + VertexTotal(ms[..k])
    decreases |ms|
  {
    var init := ms[..|ms| - 1];
    MergedIndicesLength(init);
    MergedIndicesLength(ms);
    if k == |ms| - 1 {
      assert ms[..k] == init;
    } else {
      assert init[..k] == ms[..k];
      assert init[..k + 1] == ms[..k + 1];
      assert ms[..k + 1][..k] == ms[..k];
      IndexTotalMonotone(init, k + 1);
      MergedIndicesLayout(init, k, j);
    }
  }

  /**
   When every index of mesh `k` names one of its own vertices, its merged
   index names one of the same vertices in the merged mesh: it lies between
   the vertex counts of the meshes before `k` and up to `k`.
   */
  lemma MergedIndexStaysInOwnMesh(ms: seq<Mesh>, k: nat, j: nat)
    requires k < |ms| && j < |ms[k].indices|
    requires 0 <= ms[k].indices[j] < VertexCount(ms[k])
    ensures IndexTotal(ms[..k]) + j < |MergedIndices(ms)|
    ensures var v := MergedIndices(ms)[IndexTotal(ms[..k]) + j];
      VertexTotal(ms[..k]) <= v < VertexTotal(ms[..k + 1])
  {
    MergedIndicesLayout(ms, k, j);
    var upTo := ms[..k + 1];
    assert upTo[..|upTo| - 1] == ms[..k] && upTo[|upTo| - 1] == ms[k];
    assert VertexTotal(upTo) == VertexTotal(ms[..k]) + VertexCount(ms[k]);
  }

  /** The merged frame is at least every input mesh's frame. */
  lemma {:induction false} MaxFrameBounds(ms: seq<Mesh>, k: nat)
    requires k < |ms|
    ensures ms[k].generatedAtFrame <= MaxFrame(ms)
    decreases |ms|
  {
    if k < |ms| - 1 {
      assert ms[..|ms| - 1][k] == ms[k];
      MaxFrameBounds(ms[..|ms| - 1], k);
    }
  }

  /** When every input index names one of its own mesh's vertices, every merged index names a merged vertex. */
  lemma {:induction false} MergedIndicesInRange(ms: seq<Mesh>)
    requires forall k, j :: 0 <= k < |ms| && 0 <= j < |ms[k].indices| ==> 0 <= ms[k].indices[j] < VertexCount(ms[k])
    ensures forall x :: x in MergedIndices(ms) ==> 0 <= x < VertexTotal(ms)
    decreases |ms|
  {
    if |ms| > 0 {
      var init := ms[..|ms| - 1];
      assert forall k :: 0 <= k < |init| ==> init[k] == ms[k];
      MergedIndicesInRange(init);
    }
  }

  /** Meshes whose array `f` all have length `n` concatenate to `n` values per mesh. */
  lemma {:induction false} ConcatLength(ms: seq<Mesh>, f: Field, n: nat)
    requires forall k :: 0 <= k < |ms| ==> |Get(ms[k], f)| == n
    ensures |Concat(ms, f)| == n * |ms|
    decreases |ms|
  {
    if |ms| > 0 {
      var init := ms[..|ms| - 1];
      assert forall k :: 0 <= k < |init| ==> init[k] == ms[k];
      ConcatLength(init, f, n);
      assert n * |ms| == n * |init| + n;
    }
  }

  /** Meshes of `n` vertices each, three values per vertex, hold `n` vertices per mesh together. */
  lemma {:induction false} VertexTotalUniform(ms: seq<Mesh>, n: nat)
    requires forall k :: 0 <= k < |ms| ==> ms[k].vertexSize == 3 && |ms[k].vertices| == 3 * n
    ensures VertexTotal(ms) == n * |ms|
    decreases |ms|
  {
    if |ms| > 0 {
      var init := ms[..|ms| - 1];
      assert forall k :: 0 <= k < |init| ==> init[k] == ms[k];
      VertexTotalUniform(init, n);
      assert n * |ms| == n * |init| + n;
    }
  }

  /** Meshes that all carry frame `frame` have `frame` as their latest frame, when there is at least one. */
  lemma {:induction false} MaxFrameUniform(ms: seq<Mesh>, frame: nat)
    requires |ms| > 0 && forall k :: 0 <= k < |ms| ==> ms[k].generatedAtFrame == frame
    ensures MaxFrame(ms) == frame
    decreases |ms|
  {
    if |ms| > 1 {
      var init := ms[..|ms| - 1];
      assert forall k :: 0 <= k < |init| ==> init[k] == ms[k];
      MaxFrameUniform(init, frame);
    }
  }
}
