/**
 The rectangle merge of the greedy mesher: one slice's mask is swept row by
 row, and each non-empty cell not yet taken seeds the widest, then tallest,
 rectangle of equal faces, whose cells are then cleared.
 */
module GreedyRects {
  import opened Base
  import opened GreedyFaces

  /** A merged rectangle: seed column `i`, row `j`, width `w`, height `h`, and the seed's face. */
  datatype Rect = Rect(i: nat, j: nat, w: nat, h: nat, face: VoxelFace)

  predicate InRect(r: Rect, a: nat, b: nat)
  {
    r.i <= a < r.i + r.w && r.j <= b < r.j + r.h
  }

  /** A rectangle of at least one cell lying inside the mask. */
  predicate WellPlaced(r: Rect)
  {
    1 <= r.w && 1 <= r.h && r.i + r.w <= WIDTH && r.j + r.h <= WIDTH
  }

  /** Some rectangle of the list holds cell (a, b). */
  predicate CoveredBy(rects: seq<Rect>, a: nat, b: nat)
  {
    |rects| > 0 && (InRect(rects[|rects| - 1], a, b) || CoveredBy(rects[..|rects| - 1], a, b))
  }

  lemma {:induction false} CoveredByMember(rects: seq<Rect>, q: nat, a: nat, b: nat)
    requires q < |rects| && InRect(rects[q], a, b)
    ensures CoveredBy(rects, a, b)
    decreases |rects|
  {
    if q < |rects| - 1 {
      assert rects[..|rects| - 1][q] == rects[q];
      CoveredByMember(rects[..|rects| - 1], q, a, b);
    }
  }

  /** A covered cell lies in some rectangle of the list. */
  lemma {:induction false} CoveredByWitness(rects: seq<Rect>, a: nat, b: nat) returns (q: nat)
    requires CoveredBy(rects, a, b)
    ensures q < |rects| && InRect(rects[q], a, b)
    decreases |rects|
  {
    if InRect(rects[|rects| - 1], a, b) {
      q := |rects| - 1;
    } else {
      q := CoveredByWitness(rects[..|rects| - 1], a, b);
      assert rects[..|rects| - 1][q] == rects[q];
    }
  }

  lemma CoveredByAppend(rects: seq<Rect>, r: Rect, a: nat, b: nat)
    ensures CoveredBy(rects + [r], a, b) <==> InRect(r, a, b) || CoveredBy(rects, a, b)
  {
    assert (rects + [r])[..|rects|] == rects;
  }

  /** Every cell of row `b` from column `a0` (inclusive) to `a1` (exclusive) holds a face equal to `seed`. */
  predicate RowMatches(m: Mask, a0: nat, a1: nat, b: nat, seed: VoxelFace)
    requires a1 <= WIDTH && b < WIDTH
  {
    forall a: nat :: a0 <= a < a1 ==> At(m, a, b).Some? && FaceEquals(At(m, a, b).value, seed)
  }

  /** Every cell of columns `i`..`i+w` and rows `j`..`j+h` (exclusive) holds a face equal to `seed`. */
  predicate BlockMatches(m: Mask, i: nat, j: nat, w: nat, h: nat, seed: VoxelFace)
    requires i + w <= WIDTH && j + h <= WIDTH
  {
    forall a: nat, b: nat :: i <= a < i + w && j <= b < j + h ==> At(m, a, b).Some? && FaceEquals(At(m, a, b).value, seed)
  }

  /** The run of faces equal to `seed` in row `j`, counted from width `w` on: it stops at the edge or the first other cell. */
  function WidthFrom(m: Mask, i: nat, j: nat, seed: VoxelFace, w: nat): (r: nat)
    requires j < WIDTH && 1 <= w && i + w <= WIDTH
    requires RowMatches(m, i, i + w, j, seed)
    ensures w <= r && i + r <= WIDTH
    ensures RowMatches(m, i, i + r, j, seed)
    ensures i + r < WIDTH ==> !(At(m, i + r, j).Some? && FaceEquals(At(m, i + r, j).value, seed))
    decreases WIDTH - (i + w)
  {
    if i + w < WIDTH && At(m, i + w, j).Some? && FaceEquals(At(m, i + w, j).value, seed) then WidthFrom(m, i, j, seed, w + 1) else w
  }

  /**
   The width loop: the seed's run of equal faces to the right, stopped by the
   mask's edge or the first cell that is empty or different.
   */
  method RectWidth(m: Mask, i: nat, j: nat) returns (w: nat)
    requires i < WIDTH && j < WIDTH && At(m, i, j).Some?
    ensures 1 <= w && i + w <= WIDTH
    ensures RowMatches(m, i, i + w, j, At(m, i, j).value)
    ensures i + w < WIDTH ==> !(At(m, i + w, j).Some? && FaceEquals(At(m, i + w, j).value, At(m, i, j).value))
    ensures w == WidthFrom(m, i, j, At(m, i, j).value, 1)
  {
    var seed := At(m, i, j).value;
    w := 1;
    while i + w < WIDTH && At(m, i + w, j).Some? && FaceEquals(At(m, i + w, j).value, seed)
      invariant 1 <= w && i + w <= WIDTH
      invariant RowMatches(m, i, i + w, j, seed)
      invariant WidthFrom(m, i, j, seed, w) == WidthFrom(m, i, j, seed, 1)
    {
      w := w + 1;
    }
  }

  /** The rows, counted from height `h` on, whose cells under the width all hold faces equal to `seed`. */
  function HeightFrom(m: Mask, i: nat, j: nat, w: nat, seed: VoxelFace, h: nat): (r: nat)
    requires i + w <= WIDTH && 1 <= h && j + h <= WIDTH
    requires BlockMatches(m, i, j, w, h, seed)
    ensures h <= r && j + r <= WIDTH
    ensures BlockMatches(m, i, j, w, r, seed)
    ensures j + r < WIDTH ==> !RowMatches(m, i, i + w, j + r, seed)
    decreases WIDTH - (j + h)
  {
    if j + h < WIDTH && RowMatches(m, i, i + w, j + h, seed) then HeightFrom(m, i, j, w, seed, h + 1) else h
  }

  /** The row check of the height loop: every cell of row `b` under the width holds a face equal to the seed. */
  method RowMatchesAt(m: Mask, i: nat, w: nat, b: nat, seed: VoxelFace) returns (ok: bool)
    requires i + w <= WIDTH && b < WIDTH
    ensures ok <==> RowMatches(m, i, i + w, b, seed)
  {
    var k := 0;
    while k < w
      invariant 0 <= k <= w
      invariant RowMatches(m, i, i + k, b, seed)
    {
      if At(m, i + k, b).None? || !FaceEquals(At(m, i + k, b).value, seed) {
        return false;
      }
      k := k + 1;
    }
    return true;
  }

  /**
   The height loop: rows below the seed row are added while every cell under
   the rectangle's width holds a face equal to the seed.
   */
  method RectHeight(m: Mask, i: nat, j: nat, w: nat) returns (h: nat)
    requires j < WIDTH && 1 <= w && i + w <= WIDTH && At(m, i, j).Some?
    requires RowMatches(m, i, i + w, j, At(m, i, j).value)
    ensures 1 <= h && j + h <= WIDTH
    ensures BlockMatches(m, i, j, w, h, At(m, i, j).value)
    ensures j + h < WIDTH ==> !RowMatches(m, i, i + w, j + h, At(m, i, j).value)
    ensures h == HeightFrom(m, i, j, w, At(m, i, j).value, 1)
  {
    var seed := At(m, i, j).value;
    h := 1;
    var done := false;
    while !done && j + h < WIDTH
      invariant 1 <= h && j + h <= WIDTH
      invariant BlockMatches(m, i, j, w, h, seed)
      invariant done ==> j + h < WIDTH && !RowMatches(m, i, i + w, j + h, seed)
      invariant HeightFrom(m, i, j, w, seed, h) == HeightFrom(m, i, j, w, seed, 1)
      decreases WIDTH - h, if done then 0 else 1
    {
      var ok := RowMatchesAt(m, i, w, j + h, seed);
      if ok {
        h := h + 1;
      } else {
        done := true;
      }
    }
  }

  /** The mask with cells `i` to `i + k` (exclusive) of row `b` emptied. */
  function EraseRun(m: Mask, i: nat, b: nat, k: nat): (m': Mask)
    requires i + k <= WIDTH && b < WIDTH
    ensures forall a: nat, c: nat :: a < WIDTH && c < WIDTH ==> At(m', a, c) == if c == b && i <= a < i + k then None else At(m, a, c)
    decreases k
  {
    if k == 0 then m
    else
      var s := EraseRun(m, i, b, k - 1);
      var m': Mask := s[b * WIDTH + i + k - 1 := None];
      assert forall a: nat, c: nat :: a < WIDTH && c < WIDTH ==> At(m', a, c) == if c == b && i <= a < i + k then None else At(m, a, c) by {
        forall a: nat, c: nat | a < WIDTH && c < WIDTH
          ensures At(m', a, c) == if c == b && i <= a < i + k then None else At(m, a, c)
        {
          CellsDistinct(a, c, i + k - 1, b);
          if c * WIDTH + a != b * WIDTH + i + k - 1 {
            assert At(m', a, c) == At(s, a, c);
          }
        }
      }
      m'
  }

  /** The mask with the rectangle's first `l` rows emptied. */
  function EraseRows(m: Mask, r: Rect, l: nat): (m': Mask)
    requires WellPlaced(r) && l <= r.h
    ensures forall a: nat, b: nat :: a < WIDTH && b < WIDTH ==> At(m', a, b) == if InRect(r, a, b) && b < r.j + l then None else At(m, a, b)
    decreases l
  {
    if l == 0 then m else EraseRun(EraseRows(m, r, l - 1), r.i, r.j + l - 1, r.w)
  }

  /** The mask with the rectangle's cells emptied. */
  function Erased(m: Mask, r: Rect): (m': Mask)
    requires WellPlaced(r)
    ensures forall a: nat, b: nat :: a < WIDTH && b < WIDTH ==> At(m', a, b) == if InRect(r, a, b) then None else At(m, a, b)
  {
    EraseRows(m, r, r.h)
  }

  /** The clearing loop: every cell of the rectangle becomes empty; the rest is untouched. */
  method EraseRect(m: Mask, r: Rect) returns (m': Mask)
    requires WellPlaced(r)
    ensures forall a: nat, b: nat :: a < WIDTH && b < WIDTH ==> At(m', a, b) == if InRect(r, a, b) then None else At(m, a, b)
    ensures m' == Erased(m, r)
  {
    m' := m;
    var l := 0;
    while l < r.h
      invariant 0 <= l <= r.h
      invariant forall a: nat, b: nat :: a < WIDTH && b < WIDTH ==>
        At(m', a, b) == if InRect(r, a, b) && b < r.j + l then None else At(m, a, b)
    {
      var k := 0;
      while k < r.w
        invariant 0 <= k <= r.w
        invariant forall a: nat, b: nat :: a < WIDTH && b < WIDTH ==>
          At(m', a, b) == if InRect(r, a, b) && (b < r.j + l || (b == r.j + l && a < r.i + k)) then None else At(m, a, b)
      {
        m' := m'[(r.j + l) * WIDTH + (r.i + k) := None];
        k := k + 1;
      }
      l := l + 1;
    }
    SameCellsSameMask(m', Erased(m, r));
  }

  /** What the sweep keeps true about the rectangles found so far and the mask they leave. */
  predicate SweepInvariant(orig: Mask, rects: seq<Rect>, m: Mask)
  {
    && (forall q :: 0 <= q < |rects| ==> WellPlaced(rects[q]))
    && (forall q :: 0 <= q < |rects| ==> rects[q].i < WIDTH && rects[q].j < WIDTH && At(orig, rects[q].i, rects[q].j) == Some(rects[q].face))
    && (forall q, a: nat, b: nat :: 0 <= q < |rects| && a < WIDTH && b < WIDTH && InRect(rects[q], a, b) ==>
          At(orig, a, b).Some? && FaceEquals(At(orig, a, b).value, rects[q].face))
    && (forall a: nat, b: nat :: a < WIDTH && b < WIDTH ==> At(m, a, b) == if CoveredBy(rects, a, b) then None else At(orig, a, b))
    && (forall a: nat, b: nat :: a < WIDTH && b < WIDTH && CoveredBy(rects, a, b) ==> At(orig, a, b).Some?)
    && (forall p, q, a: nat, b: nat :: 0 <= p < q < |rects| && a < WIDTH && b < WIDTH && InRect(rects[p], a, b) ==> !InRect(rects[q], a, b))
  }

  /** Adding the rectangle seeded at a non-empty cell, and clearing it, keeps the sweep invariant. */
  lemma TakeRect(orig: Mask, rects: seq<Rect>, m: Mask, r: Rect, m': Mask)
    requires SweepInvariant(orig, rects, m)
    requires WellPlaced(r) && r.i < WIDTH && r.j < WIDTH && At(m, r.i, r.j) == Some(r.face)
    requires BlockMatches(m, r.i, r.j, r.w, r.h, r.face)
    requires forall a: nat, b: nat :: a < WIDTH && b < WIDTH ==> At(m', a, b) == if InRect(r, a, b) then None else At(m, a, b)
    ensures SweepInvariant(orig, rects + [r], m')
  {
    var rs := rects + [r];
    forall a: nat, b: nat | a < WIDTH && b < WIDTH
      ensures CoveredBy(rs, a, b) <==> InRect(r, a, b) || CoveredBy(rects, a, b)
    {
      CoveredByAppend(rects, r, a, b);
    }
    forall a: nat, b: nat | a < WIDTH && b < WIDTH && InRect(r, a, b)
      ensures At(m, a, b).Some? && FaceEquals(At(m, a, b).value, r.face) && !CoveredBy(rects, a, b)
    {
    }
    forall p, q, a: nat, b: nat | 0 <= p < q < |rs| && a < WIDTH && b < WIDTH && InRect(rs[p], a, b)
      ensures !InRect(rs[q], a, b)
    {
      if q == |rects| && InRect(r, a, b) {
        assert rs[p] == rects[p];
        CoveredByMember(rects, p, a, b);
      }
    }
  }

  /** Clearing a rectangle seeded at column `r.i` of row `j` leaves the cells already swept empty, and empties the rest of the seed's run. */
  lemma SweptStayEmpty(m: Mask, r: Rect, m': Mask, j: nat)
    requires WellPlaced(r) && r.j == j && j < WIDTH
    requires forall a: nat, b: nat :: a < WIDTH && b < j ==> At(m, a, b).None?
    requires forall a: nat :: a < r.i ==> At(m, a, j).None?
    requires forall a: nat, b: nat :: a < WIDTH && b < WIDTH ==> At(m', a, b) == if InRect(r, a, b) then None else At(m, a, b)
    ensures forall a: nat, b: nat :: a < WIDTH && b < j ==> At(m', a, b).None?
    ensures forall a: nat :: a < r.i + r.w ==> At(m', a, j).None?
  {
    forall a: nat | a < r.i + r.w
      ensures At(m', a, j).None?
    {
      assert a < WIDTH;
    }
  }

  /** The rectangle a non-empty cell seeds: its face's run to the right, then as many rows below as match under that run. */
  function SeedRect(m: Mask, i: nat, j: nat): (r: Rect)
    requires i < WIDTH && j < WIDTH && At(m, i, j).Some?
    ensures r.i == i && r.j == j && r.face == At(m, i, j).value && WellPlaced(r)
    ensures BlockMatches(m, i, j, r.w, r.h, r.face)
  {
    var seed := At(m, i, j).value;
    assert RowMatches(m, i, i + 1, j, seed);
    var w := WidthFrom(m, i, j, seed, 1);
    Rect(i, j, w, HeightFrom(m, i, j, w, seed, 1), seed)
  }

  /**
   The sweep as a recursion over the cells in row-major order from cell
   (i, j): an empty cell is passed over; a non-empty one seeds the rectangle
   of its width run and then its height run, which is emptied, and the sweep
   resumes just right of it. The result is the rectangles found, in order,
   and the mask left behind.
   */
  function SweepFrom(m: Mask, i: nat, j: nat, rects: seq<Rect>): (seq<Rect>, Mask)
    requires i <= WIDTH && j <= WIDTH
    decreases WIDTH - j, WIDTH - i
  {
    if j == WIDTH then (rects, m)
    else if i == WIDTH then SweepFrom(m, 0, j + 1, rects)
    else
      match At(m, i, j)
      case None => SweepFrom(m, i + 1, j, rects)
      case Some(_) =>
        var r := SeedRect(m, i, j);
        SweepFrom(Erased(m, r), i + r.w, j, rects + [r])
  }

  /** The greedy merge of a whole mask: the rectangles it finds, in order, and the mask left behind. */
  function Sweep(m: Mask): (seq<Rect>, Mask)
  {
    SweepFrom(m, 0, 0, [])
  }

  /** The sweep's state on reaching cell (i, j): the sweep invariant holds and every cell before (i, j) is empty. */
  predicate SweptTo(orig: Mask, rects: seq<Rect>, m: Mask, i: nat, j: nat)
  {
    && SweepInvariant(orig, rects, m)
    && (forall a: nat, b: nat :: a < WIDTH && b < j && b < WIDTH ==> At(m, a, b).None?)
    && (forall a: nat :: a < i && a < WIDTH && j < WIDTH ==> At(m, a, j).None?)
  }

  /** Taking the rectangle seeded at the first non-empty cell left, `r`, and emptying it, giving `m'`, keeps the sweep's state. */
  lemma TakeKeeps(orig: Mask, rects: seq<Rect>, m: Mask, i: nat, j: nat, r: Rect, m': Mask)
    requires i < WIDTH && j < WIDTH && At(m, i, j).Some?
    requires SweptTo(orig, rects, m, i, j)
    requires r == SeedRect(m, i, j) && m' == Erased(m, r)
    ensures i + r.w <= WIDTH
    ensures SweptTo(orig, rects + [r], m', i + r.w, j)
  {
    TakeRect(orig, rects, m, r, m');
    SweptStayEmpty(m, r, m', j);
  }

  /** What the sweep promises of its result: the invariant holds and the mask left behind is empty. */
  predicate SweepResult(orig: Mask, res: (seq<Rect>, Mask))
  {
    && SweepInvariant(orig, res.0, res.1)
    && (forall a: nat, b: nat :: a < WIDTH && b < WIDTH ==> At(res.1, a, b).None?)
  }

  /** Before the sweep starts, nothing is taken and nothing is swept. */
  lemma SweepStarts(orig: Mask)
    ensures SweptTo(orig, [], orig, 0, 0)
  {
  }

  /** At the end of a row the sweep's state carries over to the start of the next. */
  lemma NextRowKeeps(orig: Mask, rects: seq<Rect>, m: Mask, j: nat)
    requires j < WIDTH && SweptTo(orig, rects, m, WIDTH, j)
    ensures SweptTo(orig, rects, m, 0, j + 1)
  {
  }

  /** Passing an empty cell keeps the sweep's state. */
  lemma SkipKeeps(orig: Mask, rects: seq<Rect>, m: Mask, i: nat, j: nat)
    requires i < WIDTH && j < WIDTH && At(m, i, j).None?
    requires SweptTo(orig, rects, m, i, j)
    ensures SweptTo(orig, rects, m, i + 1, j)
  {
  }

  /** The sweep from the end of a row is the sweep from the start of the next. */
  lemma NextRowStep(m: Mask, j: nat, rects: seq<Rect>, res: (seq<Rect>, Mask))
    requires j < WIDTH && res == SweepFrom(m, WIDTH, j, rects)
    ensures res == SweepFrom(m, 0, j + 1, rects)
  {
  }

  /** The sweep from an empty cell is the sweep from the next cell. */
  lemma SkipStep(m: Mask, i: nat, j: nat, rects: seq<Rect>, res: (seq<Rect>, Mask))
    requires i < WIDTH && j < WIDTH && At(m, i, j).None?
    requires res == SweepFrom(m, i, j, rects)
    ensures res == SweepFrom(m, i + 1, j, rects)
  {
  }

  /** The sweep from a non-empty cell is the sweep from just right of the rectangle it seeds, once that is taken and emptied. */
  lemma TakeStep(m: Mask, i: nat, j: nat, rects: seq<Rect>, r: Rect, m': Mask, i': nat, rects': seq<Rect>, res: (seq<Rect>, Mask))
    requires i < WIDTH && j < WIDTH && At(m, i, j).Some?
    requires r == SeedRect(m, i, j) && m' == Erased(m, r) && i' == i + r.w && rects' == rects + [r]
    requires res == SweepFrom(m, i, j, rects)
    ensures i' <= WIDTH
    ensures res == SweepFrom(m', i', j, rects')
  {
  }

  /** The sweep's step at the end of a row, `res` being where the sweep ends: the state is kept and the sweep moves to the next row. */
  lemma NextRowSound(orig: Mask, m: Mask, j: nat, rects: seq<Rect>, res: (seq<Rect>, Mask)) returns (j': nat)
    requires j < WIDTH
    requires SweptTo(orig, rects, m, WIDTH, j) && res == SweepFrom(m, WIDTH, j, rects)
    ensures j' == j + 1
    ensures SweptTo(orig, rects, m, 0, j') && res == SweepFrom(m, 0, j', rects)
  {
    NextRowKeeps(orig, rects, m, j);
    NextRowStep(m, j, rects, res);
    j' := j + 1;
  }

  /** The sweep's step at an empty cell, `res` being where the sweep ends: the state is kept and the sweep moves to the next cell. */
  lemma SkipSound(orig: Mask, m: Mask, i: nat, j: nat, rects: seq<Rect>, res: (seq<Rect>, Mask)) returns (i': nat)
    requires i < WIDTH && j < WIDTH && At(m, i, j).None?
    requires SweptTo(orig, rects, m, i, j) && res == SweepFrom(m, i, j, rects)
    ensures i' == i + 1
    ensures SweptTo(orig, rects, m, i', j) && res == SweepFrom(m, i', j, rects)
  {
    SkipKeeps(orig, rects, m, i, j);
    SkipStep(m, i, j, rects, res);
    i' := i + 1;
  }

  /** The sweep's step at a non-empty cell, `res` being where the sweep ends: the state is kept and the sweep moves past the rectangle taken. */
  lemma TakeSound(orig: Mask, m: Mask, i: nat, j: nat, rects: seq<Rect>, res: (seq<Rect>, Mask)) returns (m': Mask, i': nat, rects': seq<Rect>)
    requires i < WIDTH && j < WIDTH && At(m, i, j).Some?
    requires SweptTo(orig, rects, m, i, j) && res == SweepFrom(m, i, j, rects)
    ensures i < i' <= WIDTH
    ensures SweptTo(orig, rects', m', i', j) && res == SweepFrom(m', i', j, rects')
  {
    var r := SeedRect(m, i, j);
    m', i', rects' := Erased(m, r), i + r.w, rects + [r];
    TakeKeeps(orig, rects, m, i, j, r, m');
    TakeStep(m, i, j, rects, r, m', i', rects', res);
  }

  /**
   The greedy merge's rectangles are well placed, seeded at non-empty cells,
   cover exactly the non-empty cells with faces equal to their seed's, and do
   not overlap; the mask it leaves is empty. The proof walks the sweep cell
   by cell, keeping its state.
   */
  lemma SweepSound(orig: Mask)
    ensures SweepResult(orig, Sweep(orig))
  {
    var res := Sweep(orig);
    var m, rects := orig, [];
    var i: nat, j: nat := 0, 0;
    SweepStarts(orig);
    while j < WIDTH
      invariant i <= WIDTH && j <= WIDTH
      invariant SweptTo(orig, rects, m, i, j)
      invariant res == SweepFrom(m, i, j, rects)
      decreases WIDTH - j, WIDTH - i
    {
      if i == WIDTH {
        j := NextRowSound(orig, m, j, rects, res);
        i := 0;
      } else if At(m, i, j).None? {
        i := SkipSound(orig, m, i, j, rects, res);
      } else {
        m, i, rects := TakeSound(orig, m, i, j, rects, res);
      }
    }
  }

  /**
   Every non-empty cell of a mask lies in exactly one of the rectangles the
   sweep finds, and that rectangle's face equals the cell's.
   */
  lemma SweepCoversOnce(m: Mask, a: nat, b: nat) returns (q: nat)
    requires a < WIDTH && b < WIDTH && At(m, a, b).Some?
    ensures q < |Sweep(m).0| && InRect(Sweep(m).0[q], a, b)
    ensures FaceEquals(At(m, a, b).value, Sweep(m).0[q].face)
    ensures forall q' :: 0 <= q' < |Sweep(m).0| && InRect(Sweep(m).0[q'], a, b) ==> q' == q
  {
    var res := Sweep(m);
    SweepSound(m);
    assert At(res.1, a, b).None?;
    q := CoveredByWitness(res.0, a, b);
    forall q' | 0 <= q' < |res.0| && InRect(res.0[q'], a, b)
      ensures q' == q
    {
    }
  }

  /**
   The sweep at the non-empty cell (i, j): the width loop, the height loop and
   the clearing loop take the cell's seeded rectangle and empty it.
   */
  method TakeAt(m: Mask, i: nat, j: nat) returns (r: Rect, m': Mask)
    requires i < WIDTH && j < WIDTH && At(m, i, j).Some?
    ensures r == SeedRect(m, i, j) && m' == Erased(m, r)
  {
    var w := RectWidth(m, i, j);
    var h := RectHeight(m, i, j, w);
    r := Rect(i, j, w, h, At(m, i, j).value);
    m' := EraseRect(m, r);
  }

  /** The sweep's step at cell (i, j) of a row, `res` being where the sweep ends: a non-empty cell's rectangle is taken, and the sweep moves past it. */
  method SweepCell(m: Mask, i: nat, j: nat, rects: seq<Rect>, ghost res: (seq<Rect>, Mask)) returns (m': Mask, i': nat, rects': seq<Rect>)
    requires i < WIDTH && j < WIDTH && res == SweepFrom(m, i, j, rects)
    ensures i < i' <= WIDTH && res == SweepFrom(m', i', j, rects')
  {
    if At(m, i, j).Some? {
      var r;
      r, m' := TakeAt(m, i, j);
      i', rects' := i + r.w, rects + [r];
      TakeStep(m, i, j, rects, r, m', i', rects', res);
    } else {
      SkipStep(m, i, j, rects, res);
      m', i', rects' := m, i + 1, rects;
    }
  }

  /** The inner loop of the sweep: row `j`, left to right, each non-empty cell seeding a rectangle. */
  method SweepRow(rects0: seq<Rect>, m0: Mask, j: nat) returns (rects: seq<Rect>, m: Mask)
    requires j < WIDTH
    ensures SweepFrom(m0, 0, j, rects0) == SweepFrom(m, 0, j + 1, rects)
  {
    rects, m := rects0, m0;
    ghost var res := SweepFrom(m0, 0, j, rects0);
    var i: nat := 0;
    while i < WIDTH
      invariant i <= WIDTH
      invariant res == SweepFrom(m, i, j, rects)
    {
      m, i, rects := SweepCell(m, i, j, rects, res);
    }
    NextRowStep(m, j, rects, res);
  }

  /**
   The rectangle merge of one slice (the mask loop of `calculate_greedy_mesh`):
   returns the rectangles in the order they are found and the mask left
   behind.
   */
  method GreedySlice(orig: Mask) returns (rects: seq<Rect>, m: Mask)
    ensures forall q :: 0 <= q < |rects| ==> WellPlaced(rects[q])
    ensures forall q :: 0 <= q < |rects| ==> rects[q].i < WIDTH && rects[q].j < WIDTH && At(orig, rects[q].i, rects[q].j) == Some(rects[q].face)
    ensures forall q, a: nat, b: nat :: 0 <= q < |rects| && a < WIDTH && b < WIDTH && InRect(rects[q], a, b) ==>
      At(orig, a, b).Some? && FaceEquals(At(orig, a, b).value, rects[q].face)
    ensures forall a: nat, b: nat :: a < WIDTH && b < WIDTH ==> At(m, a, b).None?
    ensures forall a: nat, b: nat :: a < WIDTH && b < WIDTH ==> (At(orig, a, b).Some? <==> CoveredBy(rects, a, b))
    ensures forall p, q, a: nat, b: nat :: 0 <= p < q < |rects| && a < WIDTH && b < WIDTH && InRect(rects[p], a, b) ==> !InRect(rects[q], a, b)
    ensures (rects, m) == Sweep(orig)
  {
    m := orig;
    rects := [];
    var j := 0;
    while j < WIDTH
      invariant 0 <= j <= WIDTH
      invariant SweepFrom(m, 0, j, rects) == Sweep(orig)
    {
      rects, m := SweepRow(rects, m, j);
      j := j + 1;
    }
    SweepSound(orig);
  }
}
