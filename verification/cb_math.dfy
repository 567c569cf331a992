/**
 Integer helpers of the engine: exponentiation, conversions between flat and
 multi-dimensional indices, and the (unfinished) noise table.
 Rust's `usize` is modelled as `nat`; overflow is not modelled.
 */
module CbMath {
  import opened Base

  /** Reference definition: `n` raised to the power `p`. */
  function Power(n: nat, p: nat): nat
  {
    if p == 0 then 1 else n * Power(n, p - 1)
  }

  /** `pow`: multiplies an accumulator starting at 1 by `num`, `p` times. */
  method Pow(num: nat, p: nat) returns (value: nat)
    ensures value == Power(num, p)
  {
    value := 1;
    var k := 0;
    while k < p
      invariant k <= p
      invariant value == Power(num, k)
    {
      value := value * num;
      k := k + 1;
    }
  }

  /** The values the source's unit tests pin down for `pow`. */
  lemma PowTestValues()
    ensures Power(0, 3) == 0 && Power(1, 3) == 1 && Power(3, 0) == 1
    ensures Power(2, 2) == 4 && Power(3, 3) == 27
  {
  }

  /** A positive multiple of `n` is at least `n`. */
  lemma MulAtLeast(n: nat, k: nat)
    requires k >= 1
    ensures n * k >= n
  {
    assert n * k == n * (k - 1) + n;
  }

  /** Division and remainder are determined by any decomposition `i == n*q + r` with `r < n`. */
  lemma DivModUnique(i: nat, n: nat, q: nat, r: nat)
    requires 0 < n && r < n && i == n * q + r
    ensures i / n == q && i % n == r
  {
    var q', r' := i / n, i % n;
    assert i == n * q' + r';
    if q' < q {
      MulAtLeast(n, q - q');
    } else if q < q' {
      MulAtLeast(n, q' - q);
    }
  }

  /** A 3D coordinate triple. */
  datatype Coord3 = Coord3(x: nat, y: nat, z: nat)

  /**
   `index_1d_to_3d`: splits a flat index into (x, y, z) for an x-fastest layout.
   Panics (division by zero) when a plane has no cells.
   */
  function Index1dTo3d(index: nat, xMax: nat, yMax: nat): (r: Result<Coord3>)
    ensures r.Ok? <==> xMax > 0 && yMax > 0
    ensures r.Ok? ==> r.value.x < xMax && r.value.y < yMax
    ensures r.Ok? ==> r.value.z == index / (xMax * yMax)
    ensures r.Ok? ==> r.value.x + xMax * r.value.y + xMax * yMax * r.value.z == index
  {
    if xMax * yMax == 0 then
      Fail(DivisionByZero)
    else
      var plane := xMax * yMax;
      var z := index / plane;
      var i := index - z * plane;
      var y := i / xMax;
      var x := i % xMax;
      Index1dTo3dFacts(index, xMax, yMax, z, i, y, x);
      Ok(Coord3(x, y, z))
  }

  lemma Index1dTo3dFacts(index: nat, xMax: nat, yMax: nat, z: nat, i: int, y: int, x: int)
    requires xMax * yMax > 0
    requires z == index / (xMax * yMax) && i == index - z * (xMax * yMax)
    requires i >= 0 && y == i / xMax && x == i % xMax
    ensures xMax > 0 && yMax > 0
    ensures 0 <= x < xMax && 0 <= y < yMax
    ensures x + xMax * y + xMax * yMax * z == index
  {
    var plane := xMax * yMax;
    assert i == index % plane;
    assert i < plane;
    assert i == xMax * y + x;
    assert xMax * yMax * z == plane * z;
  }

  /** `index_2d_to_1d`: the flat index of (x, y) in rows of `arraySize` cells. */
  function Index2dTo1d(x: nat, y: nat, arraySize: nat): nat
  {
    x + arraySize * y
  }

  /** For a column inside the row, the flat index is undone by remainder and quotient. */
  lemma {:induction false} Index2dRoundTrip(x: nat, y: nat, n: nat)
    requires x < n
    ensures Index2dTo1d(x, y, n) % n == x && Index2dTo1d(x, y, n) / n == y
  {
    DivModUnique(Index2dTo1d(x, y, n), n, y, x);
  }

  /** `Noise`: a value table and its maximum value. */
  datatype Noise = Noise(values: seq<nat>, maxValue: nat)

  /** `Noise::new`: keeps the maximum; the table is never filled in. */
  function NoiseNew(seed: nat, maxValue: nat): (r: Noise)
    ensures r.maxValue == maxValue && |r.values| == 0
  {
    Noise([], maxValue)
  }

  /** `Noise::at`: reads the table at `index_2d_to_1d(x, y, len)`; panics past the end. */
  function NoiseAt(noise: Noise, x: nat, y: nat): (r: Result<nat>)
    ensures r.Ok? <==> Index2dTo1d(x, y, |noise.values|) < |noise.values|
    ensures r.Ok? ==> r.value in noise.values
  {
    var i := Index2dTo1d(x, y, |noise.values|);
    if i < |noise.values| then Ok(noise.values[i]) else Fail(IndexOutOfBounds)
  }

  /** Every read of a freshly made noise table panics. */
  lemma NewNoiseIsUnreadable(seed: nat, maxValue: nat, x: nat, y: nat)
    ensures NoiseAt(NoiseNew(seed, maxValue), x, y).Fail?
  {
  }
}
