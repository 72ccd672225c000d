/** Structural tests on dense storage: element-wise equality over the left
    operand's capacity, symmetry about the diagonal, and the Hermitian test. */
module DensePredicates {
  import opened Indexing
  import opened Dense

  /** Slot of row `i`, column `j` of a matrix stored with row stride `lda`. */
  function Idx(i: nat, j: nat, lda: nat): nat {
    i * lda + j
  }

  /** The first `n` slots of `left` and `right` agree. */
  predicate Agree<T(==)>(left: seq<T>, right: seq<T>, n: nat)
    requires n <= |left| && n <= |right|
  {
    forall k :: 0 <= k < n ==> left[k] == right[k]
  }

  /** Every slot the symmetry test reads lies inside a buffer of `len` slots. */
  predicate PairsInBounds(len: nat, rows: nat, cols: nat, lda: nat) {
    forall i, j :: 0 <= i < rows && i < j < cols ==> Idx(i, j, lda) < len && Idx(j, i, lda) < len
  }

  /** Every slot the Hermitian test reads lies inside a buffer of `len` slots. */
  predicate HermitianInBounds(len: nat, rows: nat, cols: nat, lda: nat) {
    && (forall i, j :: 0 <= i < rows && i < j < cols ==> Idx(i, j, lda) < len)
    && (rows > 0 ==> forall j :: 1 <= j < cols ==> Idx(j, 1, lda) < len)
  }

  /** Each entry above the diagonal equals its mirror below it. */
  predicate Symmetric<T(==)>(els: seq<T>, rows: nat, cols: nat, lda: nat)
    requires PairsInBounds(|els|, rows, cols, lda)
  {
    forall i, j :: 0 <= i < rows && i < j < cols ==> els[Idx(i, j, lda)] == els[Idx(j, i, lda)]
  }

  /** Conjugate symmetry: each entry above the diagonal equals the conjugate
      of its mirror below it. */
  predicate ConjugateSymmetric<T(==)>(els: seq<T>, rows: nat, cols: nat, lda: nat, conj: T -> T)
    requires PairsInBounds(|els|, rows, cols, lda)
  {
    forall i, j :: 0 <= i < rows && i < j < cols ==> els[Idx(i, j, lda)] == conj(els[Idx(j, i, lda)])
  }

  /** What the complex Hermitian test actually compares: each entry (i, j)
      above the diagonal against the conjugate of entry (j, 1), column 1 of
      row j, instead of its mirror (j, i). */
  predicate HermitianAsWritten<T(==)>(els: seq<T>, rows: nat, cols: nat, lda: nat, conj: T -> T)
    requires HermitianInBounds(|els|, rows, cols, lda)
  {
    forall i, j :: 0 <= i < rows && i < j < cols ==> els[Idx(i, j, lda)] == conj(els[Idx(j, 1, lda)])
  }

  /** Element-wise equality of two storages over the capacity of the left
      one, scanning from the last slot down. The right storage's shape is
      never consulted, and offsets are ignored: both buffers are read from
      slot 0. */
  method EqEq<T(0,==)>(left: DenseStorage<T>, right: DenseStorage<T>) returns (eq: bool)
    requires Product(left.shape) <= left.elements.Length
    requires Product(left.shape) <= right.elements.Length
    ensures eq <==> Agree(left.elements[..], right.elements[..], Product(left.shape))
  {
    var index := Product(left.shape);
    while index > 0
      invariant 0 <= index <= Product(left.shape)
      invariant forall k :: index <= k < Product(left.shape) ==> left.elements[k] == right.elements[k]
    {
      index := index - 1;
      if left.elements[index] != right.elements[index] {
        return false;
      }
    }
    return true;
  }

  /** The symmetry test over the first two extents, with row stride `lda`:
      rows are scanned from the last down and, in each row i, the columns
      j > i from left to right, stopping at the first mismatch. */
  method IsSymmetric<T(0,==)>(mat: DenseStorage<T>, lda: nat) returns (sym: bool)
    requires |mat.shape| >= 2
    requires PairsInBounds(mat.elements.Length, mat.shape[0], mat.shape[1], lda)
    ensures sym <==> Symmetric(mat.elements[..], mat.shape[0], mat.shape[1], lda)
  {
    var rows, cols := mat.shape[0], mat.shape[1];
    var i := rows;
    while i > 0
      invariant 0 <= i <= rows
      invariant forall r, c :: i <= r < rows && r < c < cols ==>
                  mat.elements[Idx(r, c, lda)] == mat.elements[Idx(c, r, lda)]
    {
      i := i - 1;
      var j := i + 1;
      while j < cols
        invariant i + 1 <= j
        invariant forall c :: i < c < j && c < cols ==>
                    mat.elements[Idx(i, c, lda)] == mat.elements[Idx(c, i, lda)]
      {
        if mat.elements[Idx(i, j, lda)] != mat.elements[Idx(j, i, lda)] {
          return false;
        }
        j := j + 1;
      }
    }
    return true;
  }

  /** The Hermitian test for complex element types, as written: entry (i, j)
      is compared with `conj` of entry (j, 1). */
  method HermitianTemplate<T(0,==)>(mat: DenseStorage<T>, lda: nat, conj: T -> T) returns (herm: bool)
    requires |mat.shape| >= 2
    requires HermitianInBounds(mat.elements.Length, mat.shape[0], mat.shape[1], lda)
    ensures herm <==> HermitianAsWritten(mat.elements[..], mat.shape[0], mat.shape[1], lda, conj)
  {
    var rows, cols := mat.shape[0], mat.shape[1];
    var i := rows;
    while i > 0
      invariant 0 <= i <= rows
      invariant forall r, c :: i <= r < rows && r < c < cols ==>
                  mat.elements[Idx(r, c, lda)] == conj(mat.elements[Idx(c, 1, lda)])
    {
      i := i - 1;
      var j := i + 1;
      while j < cols
        invariant i + 1 <= j
        invariant forall c :: i < c < j && c < cols ==>
                    mat.elements[Idx(i, c, lda)] == conj(mat.elements[Idx(c, 1, lda)])
      {
        var complexConj := conj(mat.elements[Idx(j, 1, lda)]);
        if mat.elements[Idx(i, j, lda)] != complexConj {
          return false;
        }
        j := j + 1;
      }
    }
    return true;
  }

  /** The Hermitian test: for the two complex dtypes the complex test above;
      for every other dtype exactly the symmetry test. */
  method IsHermitian<T(0,==)>(mat: DenseStorage<T>, lda: nat, conj: T -> T) returns (herm: bool)
    requires |mat.shape| >= 2
    requires IsComplex(mat.dtype) ==> HermitianInBounds(mat.elements.Length, mat.shape[0], mat.shape[1], lda)
    requires !IsComplex(mat.dtype) ==> PairsInBounds(mat.elements.Length, mat.shape[0], mat.shape[1], lda)
    ensures IsComplex(mat.dtype) ==>
              (herm <==> HermitianAsWritten(mat.elements[..], mat.shape[0], mat.shape[1], lda, conj))
    ensures !IsComplex(mat.dtype) ==>
              (herm <==> Symmetric(mat.elements[..], mat.shape[0], mat.shape[1], lda))
  {
    if mat.dtype == Complex64 {
      herm := HermitianTemplate(mat, lda, conj);
    } else if mat.dtype == Complex128 {
      herm := HermitianTemplate(mat, lda, conj);
    } else {
      herm := IsSymmetric(mat, lda);
    }
  }

  /** Equality over zero capacity holds whatever the buffers hold. */
  lemma AgreeEmpty<T>(left: seq<T>, right: seq<T>)
    ensures Agree(left, right, 0)
  {
  }

  /** Overwriting one entry above the diagonal with a value different from
      its mirror breaks symmetry (distinct slots need a row stride other than 1). */
  lemma {:induction false} BreakSymmetry<T>(els: seq<T>, rows: nat, cols: nat, lda: nat, i: nat, j: nat, v: T)
    requires PairsInBounds(|els|, rows, cols, lda)
    requires i < rows && i < j < cols && lda != 1
    requires v != els[Idx(j, i, lda)]
    ensures !Symmetric(els[Idx(i, j, lda) := v], rows, cols, lda)
  {
    var flipped := els[Idx(i, j, lda) := v];
    MirrorSlotsDiffer(i, j, lda);
    assert flipped[Idx(i, j, lda)] != flipped[Idx(j, i, lda)];
  }

  /** Entries (i, j) and (j, i), i != j, share a slot only when the row stride is 1. */
  lemma MirrorSlotsDiffer(i: nat, j: nat, lda: nat)
    requires i < j && lda != 1
    ensures Idx(i, j, lda) != Idx(j, i, lda)
  {
    var d := j - i;
    assert j * lda == i * lda + d * lda;
    if lda >= 2 {
      assert d * lda == d + d * (lda - 1);
      assert d * (lda - 1) >= d * 1;
    }
  }

  /** Complex conjugation restricted to purely imaginary entries: the
      entry i * x is held as x, and its conjugate -i * x as -x. */
  function Negate(x: int): int { -x }

  /** A 3 x 3 purely imaginary matrix held by its imaginary parts: conjugate
      symmetric under `Negate` (skew-symmetric parts, zero diagonal), so a
      genuine Hermitian matrix, and yet it fails the Hermitian test as
      written: entry (0, 1) = 1 is compared with -entry (1, 1) = 0. */
  lemma HermitianAsWrittenIsNotConjugateSymmetry()
    ensures var m := [0, 1, 2, -1, 0, 3, -2, -3, 0];
            && PairsInBounds(|m|, 3, 3, 3) && HermitianInBounds(|m|, 3, 3, 3)
            && ConjugateSymmetric(m, 3, 3, 3, Negate)
            && !HermitianAsWritten(m, 3, 3, 3, Negate)
  {
  }
}
