/** The dense storage record: a shape, a per-view offset, an element buffer
    shared between a root storage and the views sliced from it, a back
    reference `src` to the storage a view was sliced from, and an alias count. */
module Dense {
  import opened Indexing

  /** The element-type tag. Only the two complex tags change behaviour here
      (the Hermitian test); every element is held as a slot of one type `T`. */
  datatype DType =
    | Byte | Int8 | Int16 | Int32 | Int64
    | Float32 | Float64
    | Complex64 | Complex128
    | Rational32 | Rational64 | Rational128
    | RubyObject

  predicate IsComplex(d: DType) {
    d == Complex64 || d == Complex128
  }

  /** A slice request: `coords` per dimension, and either one element
      (`isOneElement`) or a sub-array with extents `lens` starting at `coords`. */
  datatype Slice = Slice(coords: seq<nat>, lens: seq<nat>, isOneElement: bool)

  /** What `Get` returns: the slot index of one element, or a new view. */
  datatype Got<T(0)> = Address(index: nat) | NewView(view: DenseStorage<T>)

  function Zeros(n: nat): (z: seq<nat>)
    ensures |z| == n && forall k :: 0 <= k < n ==> z[k] == 0
  {
    seq(n, _ => 0)
  }

  /** d * len >= len for every positive d. */
  lemma MulAtLeast(d: int, len: int)
    requires d >= 1 && len > 0
    ensures d * len >= len
  {
  }

  /** Euclidean remainder is unique: q * len + r leaves remainder r. */
  lemma ModUnique(a: int, len: int, q: int, r: int)
    requires len > 0 && 0 <= r < len && a == q * len + r
    ensures a % len == r
  {
    var q', r' := a / len, a % len;
    var d := q - q';
    assert d * len == q * len - q' * len;
    assert d * len == r' - r;
    if d > 0 {
      MulAtLeast(d, len);
    } else if d < 0 {
      MulAtLeast(-d, len);
    }
  }

  /** (i + j) mod len == j when i is a multiple of len and j < len. */
  lemma MultipleMod(i: nat, j: nat, len: nat)
    requires len > 0 && i % len == 0 && j < len
    ensures (i + j) % len == j && (i + len) % len == 0
  {
    var q := i / len;
    assert i == q * len;
    ModUnique(i + j, len, q, j);
    assert i + len == (q + 1) * len + 0;
    ModUnique(i + len, len, q + 1, 0);
  }

  class DenseStorage<T(0)> {
    var dtype: DType
    var rank: nat
    var shape: seq<nat>
    var offset: seq<nat>
    var elements: array<T>
    var src: DenseStorage?<T>
    var count: int

    /** Every record, root or view: shape and offset have one entry per
        dimension, and the record it was sliced from has the same rank and
        the same buffer. */
    ghost predicate Valid()
      reads this, src
    {
      && |shape| == rank && |offset| == rank
      && src != null && src.rank == rank && |src.shape| == rank
      && src.elements == elements
    }

    /** A root storage owns its buffer, which holds exactly its capacity. */
    ghost predicate IsRoot()
      reads this
    {
      src == this && offset == Zeros(rank) && elements.Length == Product(shape)
    }

    /** A new root storage. An `initial` buffer whose length is exactly the
        capacity is adopted as the element buffer; otherwise a fresh buffer of
        the capacity is allocated and, when `initial` is non-empty, filled by
        repeating `initial` (the last repetition may be cut short). With no
        `initial` contents the fresh buffer is left unspecified. */
    constructor Create(dtype: DType, shape: seq<nat>, rank: nat, initial: array?<T>)
      requires |shape| == rank
      ensures Valid() && IsRoot()
      ensures this.dtype == dtype && this.rank == rank && this.shape == shape
      ensures count == 1
      ensures initial != null && initial.Length == Product(shape) ==> elements == initial
      ensures initial == null || initial.Length != Product(shape) ==> fresh(elements)
      ensures initial != null && initial.Length != Product(shape) && initial.Length > 0 ==>
                forall k :: 0 <= k < Product(shape) ==> elements[k] == initial[k % initial.Length]
    {
      var n := Product(shape);
      var buffer: array<T>;
      if initial != null && initial.Length == n {
        buffer := initial;
      } else {
        buffer := new T[n];
        if initial != null && initial.Length > 0 {
          var len := initial.Length;
          var copyLength := len;
          var i := 0;
          while i < n
            invariant i % len == 0
            invariant copyLength == len || i >= n
            invariant forall k :: 0 <= k < i && k < n ==> buffer[k] == initial[k % len]
            decreases n - i
          {
            if i + len > n {
              copyLength := n - i;
            }
            // The source offset is i % len, which is always 0.
            forall j | 0 <= j < copyLength {
              buffer[i + j] := initial[i % len + j];
            }
            forall k | i <= k < i + copyLength
              ensures buffer[k] == initial[k % len]
            {
              MultipleMod(i, k - i, len);
            }
            MultipleMod(i, 0, len);
            i := i + len;
          }
        }
      }
      this.dtype := dtype;
      this.rank := rank;
      this.shape := shape;
      this.offset := Zeros(rank);
      this.count := 1;
      this.elements := buffer;
      new;
      src := this;
    }

    /** A view of `s`: the same rank, dtype and buffer, its own extents
        `lens` and offset `coords`, and `s` as its source. Its count is never
        set, so it holds an unspecified value. */
    constructor View(s: DenseStorage<T>, lens: seq<nat>, coords: seq<nat>)
      requires s.Valid() && |lens| == s.rank && |coords| == s.rank
      ensures Valid()
      ensures rank == s.rank && dtype == s.dtype && shape == lens && offset == coords
      ensures elements == s.elements && src == s
    {
      rank := s.rank;
      shape := lens;
      dtype := s.dtype;
      offset := coords;
      elements := s.elements;
      src := s;
    }

    /** The buffer slot addressed by `slice.coords`, shifted by this record's
        offset, with strides taken from the shape of the source record. */
    method Pos(slice: Slice) returns (p: nat)
      requires Valid() && |slice.coords| == rank
      ensures p == Linear(slice.coords, offset, src.shape)
    {
      var coords, off, srcShape, n := slice.coords, offset, src.shape, rank;
      assert |coords| == |off| == |srcShape| == n;
      var outer := 0;
      var k := n;
      while k > 0
        invariant 0 <= k <= n
        invariant outer == LinearFrom(coords, off, srcShape, k)
      {
        k := k - 1;
        var inner := coords[k] + off[k];
        var l := k + 1;
        while l < n
          invariant k + 1 <= l <= n
          invariant inner == (coords[k] + off[k]) * Product(srcShape[k + 1..l])
        {
          StrideStep(srcShape, k + 1, l);
          MulAssoc(coords[k] + off[k], Product(srcShape[k + 1..l]), srcShape[l]);
          inner := inner * srcShape[l];
          l := l + 1;
        }
        assert srcShape[k + 1..l] == srcShape[k + 1..];
        outer := outer + inner;
      }
      p := outer;
    }

    /** A one-element slice yields the slot index of that element and changes
        nothing. Any other slice yields a new view sharing this buffer, with
        the slice's lens as its shape and the slice's coords as its offset
        (not added to this record's own offset), this record as its source,
        and this record's count raised by one. */
    method Get(slice: Slice) returns (r: Got<T>)
      requires Valid() && |slice.coords| == rank
      requires !slice.isOneElement ==> |slice.lens| == rank
      modifies this`count
      ensures Valid()
      ensures slice.isOneElement ==>
                r == Address(Linear(slice.coords, offset, src.shape)) && count == old(count)
      ensures !slice.isOneElement ==>
                && r.NewView? && fresh(r.view) && r.view.Valid()
                && r.view.rank == rank && r.view.dtype == dtype
                && r.view.shape == slice.lens && r.view.offset == slice.coords
                && r.view.elements == elements && r.view.src == this
                && count == old(count) + 1
    {
      if slice.isOneElement {
        var p := Pos(slice);
        r := Address(p);
      } else {
        var ns := new DenseStorage.View(this, slice.lens, slice.coords);
        count := count + 1;
        r := NewView(ns);
      }
    }

    /** Overwrites exactly the slot addressed by `slice` with `val`. */
    method Set(slice: Slice, val: T)
      requires Valid() && |slice.coords| == rank
      requires Linear(slice.coords, offset, src.shape) < elements.Length
      modifies elements
      ensures elements[Linear(slice.coords, offset, src.shape)] == val
      ensures forall k :: 0 <= k < elements.Length && k != Linear(slice.coords, offset, src.shape) ==>
                elements[k] == old(elements[k])
    {
      var p := Pos(slice);
      elements[p] := val;
    }
  }

  /** Teardown of a storage: a null handle is ignored; the shape, offset,
      buffer and record are released only when the count is at most one, and
      otherwise nothing happens. `released` reports whether they were. */
  method Delete<T(0)>(s: DenseStorage?<T>) returns (released: bool)
    ensures released <==> s != null && s.count <= 1
  {
    released := false;
    if s != null {
      if s.count <= 1 {
        released := true;
      }
    }
  }

  /** Teardown of a view: a null handle is ignored; otherwise the count of the
      view's source drops by one (nothing stops it going below zero), and the view's own shape, offset and record
      are released, so `s` must not be used again. The shared buffer is never
      touched. */
  method DeleteRef<T(0)>(s: DenseStorage?<T>)
    requires s != null ==> s.Valid()
    modifies if s != null then {s.src} else {}`count
    ensures s != null ==> s.src != null && s.src.count == old(s.src.count) - 1
  {
    if s != null {
      s.src.count := s.src.count - 1;
    }
  }
}
