/** Index arithmetic for dense, row-major (last dimension fastest) storage:
    the capacity of a shape and the linear position of a coordinate. */
module Indexing {

  /** Number of element slots of an array with extents `shape`: the product
      of all extents (the empty product is 1). A zero extent gives zero capacity. */
  function Product(shape: seq<nat>): (n: nat)
    ensures n == 0 <==> exists k :: 0 <= k < |shape| && shape[k] == 0
  {
    if shape == [] then 1
    else
      var rest := Product(shape[1..]);
      assert rest == 0 ==> exists k :: 0 <= k < |shape| && shape[k] == 0 by {
        if rest == 0 {
          var k :| 0 <= k < |shape[1..]| && shape[1..][k] == 0;
          assert shape[k + 1] == 0;
        }
      }
      shape[0] * rest
  }

  /** Appending an extent multiplies the capacity by it. */
  lemma {:induction false} ProductSnoc(shape: seq<nat>, x: nat)
    ensures Product(shape + [x]) == Product(shape) * x
  {
    if shape != [] {
      assert (shape + [x])[1..] == shape[1..] + [x];
      ProductSnoc(shape[1..], x);
      calc {
        Product(shape + [x]);
        shape[0] * Product(shape[1..] + [x]);
        shape[0] * (Product(shape[1..]) * x);
        (shape[0] * Product(shape[1..])) * x;
      }
    }
  }

  /** Extending a slice of extents by one more extent multiplies its capacity by it. */
  lemma StrideStep(shape: seq<nat>, lo: nat, hi: nat)
    requires lo <= hi < |shape|
    ensures Product(shape[lo..hi + 1]) == Product(shape[lo..hi]) * shape[hi]
  {
    assert shape[lo..hi + 1] == shape[lo..hi] + [shape[hi]];
    ProductSnoc(shape[lo..hi], shape[hi]);
  }

  /** The stride of dimension `k` in a buffer laid out by `shape`: the product
      of the extents of all strictly later dimensions. */
  function Stride(shape: seq<nat>, k: nat): nat
    requires k < |shape|
  {
    Product(shape[k + 1..])
  }

  /** Sum over dimensions m >= k of (coords[m] + offset[m]) * Stride(shape, m). */
  function LinearFrom(coords: seq<nat>, offset: seq<nat>, shape: seq<nat>, k: nat): nat
    requires |coords| == |offset| == |shape| && k <= |shape|
    decreases |shape| - k
  {
    if k == |shape| then 0
    else (coords[k] + offset[k]) * Stride(shape, k) + LinearFrom(coords, offset, shape, k + 1)
  }

  /** The linear position of `coords`, shifted by the view's `offset`, in a
      row-major buffer whose layout is given by `shape`. */
  function Linear(coords: seq<nat>, offset: seq<nat>, shape: seq<nat>): nat
    requires |coords| == |offset| == |shape|
  {
    LinearFrom(coords, offset, shape, 0)
  }

  lemma MulAssoc(a: nat, b: nat, c: nat)
    ensures (a * b) * c == a * (b * c)
  {
  }

  /** a * p + p <= b * p whenever a < b. */
  lemma MulStep(a: nat, b: nat, p: nat)
    requires a < b
    ensures a * p + p <= b * p
  {
    assert (b - a) * p >= p by {
      assert b - a >= 1;
    }
    assert b * p == a * p + (b - a) * p;
  }

  /** If every shifted coordinate lies within its extent, the suffix sum stays
      below the capacity of the suffix of the shape. */
  lemma {:induction false} LinearFromBound(coords: seq<nat>, offset: seq<nat>, shape: seq<nat>, k: nat)
    requires |coords| == |offset| == |shape| && k <= |shape|
    requires forall m :: k <= m < |shape| ==> coords[m] + offset[m] < shape[m]
    ensures LinearFrom(coords, offset, shape, k) < Product(shape[k..])
    decreases |shape| - k
  {
    if k < |shape| {
      LinearFromBound(coords, offset, shape, k + 1);
      var a := coords[k] + offset[k];
      var p := Stride(shape, k);
      assert shape[k..][1..] == shape[k + 1..];
      assert Product(shape[k..]) == shape[k] * p;
      MulStep(a, shape[k], p);
    }
  }

  /** An in-range coordinate maps to a slot below the capacity of `shape`. */
  lemma LinearBound(coords: seq<nat>, offset: seq<nat>, shape: seq<nat>)
    requires |coords| == |offset| == |shape|
    requires forall m :: 0 <= m < |shape| ==> coords[m] + offset[m] < shape[m]
    ensures Linear(coords, offset, shape) < Product(shape)
  {
    LinearFromBound(coords, offset, shape, 0);
    assert shape[0..] == shape;
  }

  /** Coordinate-wise sum of two index vectors. */
  function AddCoords(a: seq<nat>, b: seq<nat>): (c: seq<nat>)
    requires |a| == |b|
    ensures |c| == |a| && forall k :: 0 <= k < |a| ==> c[k] == a[k] + b[k]
  {
    seq(|a|, k requires 0 <= k < |a| => a[k] + b[k])
  }

  /** Only the sums coords[m] + offset[m] matter: addressing `coords` from
      `offset` is addressing their sum from the origin. */
  lemma {:induction false} LinearFromShift(coords: seq<nat>, offset: seq<nat>, zeros: seq<nat>, shape: seq<nat>, k: nat)
    requires |coords| == |offset| == |zeros| == |shape| && k <= |shape|
    requires forall m :: 0 <= m < |zeros| ==> zeros[m] == 0
    ensures LinearFrom(coords, offset, shape, k) == LinearFrom(AddCoords(coords, offset), zeros, shape, k)
    decreases |shape| - k
  {
    if k < |shape| {
      LinearFromShift(coords, offset, zeros, shape, k + 1);
    }
  }
}
