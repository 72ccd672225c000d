/** Copying and casting: a new root storage with the source's shape and a
    buffer of its own, filled from slot 0 of the source's buffer. */
module DenseCopy {
  import opened Indexing
  import opened Dense
  import opened DensePredicates

  /** What the cast writes into each slot: the raw slot when the element type
      is unchanged, the converted slot otherwise. */
  function CastSlot<T>(x: T, sameDtype: bool, convert: T -> T): T {
    if sameDtype then x else convert(x)
  }

  /** A copy of `rhs.shape` in a fresh array, filled from the last dimension down. */
  method CopyShape<T(0)>(rhs: DenseStorage<T>) returns (shape: array<nat>)
    requires |rhs.shape| == rhs.rank
    ensures fresh(shape) && shape[..] == rhs.shape
  {
    shape := new nat[rhs.rank];
    var p := rhs.rank;
    while p > 0
      invariant 0 <= p <= rhs.rank
      invariant forall q :: p <= q < rhs.rank ==> shape[q] == rhs.shape[q]
    {
      p := p - 1;
      shape[p] := rhs.shape[p];
    }
  }

  /** A same-type copy of `rhs`: a new root storage with the same dtype, rank
      and shape, zero offsets, count 1 and a fresh buffer holding the first
      capacity slots of `rhs`'s buffer (offsets of a view are ignored).
      `shapeAllocated` is false when allocating the shape array fails, and
      then the result is null. */
  method Copy<T(0)>(rhs: DenseStorage<T>, shapeAllocated: bool) returns (lhs: DenseStorage?<T>)
    requires |rhs.shape| == rhs.rank
    requires Product(rhs.shape) <= rhs.elements.Length
    ensures lhs == null <==> !shapeAllocated
    ensures lhs != null ==>
              && fresh(lhs) && fresh(lhs.elements) && lhs.Valid() && lhs.IsRoot()
              && lhs.dtype == rhs.dtype && lhs.rank == rhs.rank && lhs.shape == rhs.shape
              && lhs.count == 1
              && lhs.elements[..] == rhs.elements[..Product(rhs.shape)]
    ensures lhs != null ==> Agree(lhs.elements[..], rhs.elements[..], Product(lhs.shape))
  {
    var count := Product(rhs.shape);
    if !shapeAllocated {
      return null;
    }
    var shape := CopyShape(rhs);
    lhs := new DenseStorage.Create(rhs.dtype, shape[..], rhs.rank, null);
    if count != 0 {
      forall k | 0 <= k < count {
        lhs.elements[k] := rhs.elements[k];
      }
    }
  }

  /** A copy of `rhs` with element type `newDtype`: as `Copy`, except that
      when `newDtype` differs from `rhs.dtype` every slot is converted with
      `convert` (the conversion the type table selects for the pair), from
      the last slot down. */
  method CastCopy<T(0)>(rhs: DenseStorage<T>, newDtype: DType, convert: T -> T, shapeAllocated: bool)
    returns (lhs: DenseStorage?<T>)
    requires |rhs.shape| == rhs.rank
    requires Product(rhs.shape) <= rhs.elements.Length
    ensures lhs == null <==> !shapeAllocated
    ensures lhs != null ==>
              && fresh(lhs) && fresh(lhs.elements) && lhs.Valid() && lhs.IsRoot()
              && lhs.dtype == newDtype && lhs.rank == rhs.rank && lhs.shape == rhs.shape
              && lhs.count == 1
              && forall k :: 0 <= k < Product(rhs.shape) ==>
                   lhs.elements[k] == CastSlot(rhs.elements[k], newDtype == rhs.dtype, convert)
  {
    var count := Product(rhs.shape);
    if !shapeAllocated {
      return null;
    }
    var shape := CopyShape(rhs);
    lhs := new DenseStorage.Create(newDtype, shape[..], rhs.rank, null);
    if count != 0 {
      if lhs.dtype == rhs.dtype {
        forall k | 0 <= k < count {
          lhs.elements[k] := rhs.elements[k];
        }
      } else {
        var c := count;
        while c > 0
          invariant 0 <= c <= count
          invariant forall k :: c <= k < count ==> lhs.elements[k] == convert(rhs.elements[k])
          modifies lhs.elements
        {
          c := c - 1;
          lhs.elements[c] := convert(rhs.elements[c]);
        }
      }
    }
  }

  /** Casting to the storage's own dtype copies it slot for slot. */
  method CastToSameDtypeIsCopy<T(0)>(rhs: DenseStorage<T>, convert: T -> T)
    returns (copied: DenseStorage<T>, cast: DenseStorage<T>)
    requires |rhs.shape| == rhs.rank && Product(rhs.shape) <= rhs.elements.Length
    ensures copied != cast && copied.elements != cast.elements
    ensures copied.dtype == cast.dtype && copied.shape == cast.shape && copied.offset == cast.offset
    ensures copied.elements[..] == cast.elements[..]
  {
    var a := Copy(rhs, true);
    var b := CastCopy(rhs, rhs.dtype, convert, true);
    copied, cast := a, b;
  }

  /** Casting to any dtype and back restores every slot when the conversion
      back undoes the conversion there (to the own dtype both casts copy raw). */
  method CastRoundTrip<T(0)>(rhs: DenseStorage<T>, other: DType, there: T -> T, back: T -> T)
    returns (result: DenseStorage<T>)
    requires |rhs.shape| == rhs.rank && Product(rhs.shape) <= rhs.elements.Length
    requires forall x :: back(there(x)) == x
    ensures result.dtype == rhs.dtype && result.shape == rhs.shape && result.IsRoot()
    ensures Agree(result.elements[..], rhs.elements[..], Product(rhs.shape))
  {
    var mid := CastCopy(rhs, other, there, true);
    var res := CastCopy(mid, rhs.dtype, back, true);
    result := res;
  }
}
