# NMatrix dense storage, modelled in Dafny

This project models NMatrix's dense n-dimensional storage (`ext/nmatrix/storage/dense.cpp`):
the `DENSE_STORAGE` record with its `rank`, `shape`, `offset`, element buffer, `src` back
reference and alias `count`, and the operations on it.

- **Construction** (`Dense.DenseStorage.Create`): an initial buffer whose length equals the
  capacity (the product of the extents) is adopted; otherwise a fresh buffer is filled by
  repeating the initial values, the last repetition cut short. Offsets start at zero, the count
  at 1, and `src` is the record itself.
- **Indexing** (`Dense.DenseStorage.Pos`, module `Indexing`): the nested loop of
  `dense_storage_pos` is proved equal to the row-major sum
  Σₖ (coords[k] + offset[k]) · Π_{l>k} src.shape[l]. The strides come from the shape of the
  `src` record. In-range coordinates stay below the capacity.
- **Accessors** (`Get`, `Set`): a one-element slice gives the slot index. Any other slice gives
  a view sharing the buffer (the same Dafny `array`, so writes through either record are seen by
  both) and raises the parent's count by one. `Set` overwrites exactly one slot.
- **Teardown** (`Delete`, `DeleteRef`): `Delete` releases only when `count <= 1`. `DeleteRef`
  lowers the `src` count by one and does not touch the buffer. A view of a view counts against the
  first view, not against the root, so the root can be released while a nested view still shares
  its buffer.
- **Copying** (`Copy`, `CastCopy`): a new root with the same shape. Its buffer holds the source's
  first capacity slots, either raw (same dtype) or passed through a conversion parameter (other
  dtype); how the source's dispatch actually reads the slots is under "Left out".
- **Predicates** (`EqEq`, `IsSymmetric`, `HermitianTemplate`, `IsHermitian`): early-exit scans,
  each proved equivalent to a quantified predicate.

Element slots have a generic type `T`. The dtype is a tag on the record. Conversion between
dtypes and complex conjugation are function parameters. Allocation failure of the shape array in
the copy paths is a boolean parameter.

Behaviour reproduced as the code has it, where the comments or the obvious intent say otherwise:

- The complex Hermitian test compares entry (i, j) with the conjugate of entry (j, 1), read from
  `els[j*lda + 1]`, instead of entry (j, i) (dense.cpp:376). `HermitianAsWritten` states what it
  checks. The lemma `HermitianAsWrittenIsNotConjugateSymmetry` gives a conjugate-symmetric 3 × 3
  matrix that the test rejects. Conjugate symmetry is therefore claimed nowhere.
- A view's `src` is the record it was sliced from, not that record's `src` (dense.cpp:189).
- A view's `offset` is the slice's `coords`, not added to the parent's offset (dense.cpp:185).
- A view's `count` is never set (dense.cpp:180-190). The model leaves it unassigned, so it is
  unspecified.
- The tiling loop reads the initial values from `i % elements_length`, which is always 0
  (dense.cpp:112).
- Copy, cast-copy and equality read both buffers from slot 0 and ignore offsets
  (dense.cpp:304, 339, 343, 359). Equality never looks at the right operand's shape.

## Model

| member | source | states |
|---|---|---|
| `Indexing.Product` | ext/nmatrix/storage/dense.cpp:96 | the capacity is zero exactly when some extent is zero |
| `Indexing.ProductSnoc` | ext/nmatrix/storage/dense.cpp:259-261 | one more extent multiplies the capacity by that extent |
| `Indexing.StrideStep` | ext/nmatrix/storage/dense.cpp:259-261 | each inner-loop multiplication extends the stride product by one more extent of `src.shape` |
| `Indexing.LinearFromBound` | ext/nmatrix/storage/dense.cpp:256-264 | a suffix of the index sum stays below the capacity of that suffix of the shape when coordinates are in range |
| `Indexing.LinearBound` | ext/nmatrix/storage/dense.cpp:252-267 | if every coords[k] + offset[k] < shape[k], the linear position is below the capacity |
| `Indexing.LinearFromShift` | ext/nmatrix/storage/dense.cpp:257 | the position depends only on the sums coords[k] + offset[k], so a view of a root storage addresses the root's slot for coords + offset |
| `Dense.MultipleMod` | ext/nmatrix/storage/dense.cpp:106-113 | tile starts are multiples of the initial length, so slot i + j of a tile holds initial value (i + j) mod length |
| `Dense.DenseStorage.Create` | ext/nmatrix/storage/dense.cpp:83-121 | a root record: dtype, rank and shape as passed, zero offsets, count 1, `src` itself. An initial buffer of exactly the capacity is adopted. Otherwise the buffer is fresh, and when initial values are given, slot k holds initial[k mod length] for every k below the capacity |
| `Dense.DenseStorage.View` | ext/nmatrix/storage/dense.cpp:180-190 | a view has the parent's rank, dtype and buffer, shape = lens, offset = coords and `src` = the parent. Its count is not set |
| `Dense.DenseStorage.Pos` | ext/nmatrix/storage/dense.cpp:252-267 | the nested loop returns the sum over k of (coords[k] + offset[k]) times the product of `src.shape` beyond k |
| `Dense.DenseStorage.Get` | ext/nmatrix/storage/dense.cpp:173-193 | a one-element slice returns the slot index `Pos` computes and leaves the count alone. Any other slice returns a fresh view sharing the buffer, with shape = lens, offset = coords and `src` = this record, and raises this record's count by exactly one. The record stays well formed |
| `Dense.DenseStorage.Set` | ext/nmatrix/storage/dense.cpp:199-201 | the slot at `Pos` holds `val` afterwards, and every other slot is unchanged |
| `Dense.Delete` | ext/nmatrix/storage/dense.cpp:126-136 | a null handle is a no-op. The record is released exactly when its count is at most 1 (zero and negative counts included), and otherwise nothing changes |
| `Dense.DeleteRef` | ext/nmatrix/storage/dense.cpp:141-149 | a null handle is a no-op. Otherwise the `src` count drops by exactly one, and nothing else changes, the shared buffer included |
| `DensePredicates.EqEq` | ext/nmatrix/storage/dense.cpp:351-365 | true iff left[k] == right[k] for every k below the capacity of the left shape |
| `DensePredicates.IsSymmetric` | ext/nmatrix/storage/dense.cpp:388-402 | true iff els[i·lda + j] == els[j·lda + i] for all i < shape[0] and i < j < shape[1] |
| `DensePredicates.HermitianTemplate` | ext/nmatrix/storage/dense.cpp:367-386 | true iff els[i·lda + j] == conj(els[j·lda + 1]) for all i < shape[0] and i < j < shape[1] |
| `DensePredicates.IsHermitian` | ext/nmatrix/storage/dense.cpp:224-234 | for Complex64 and Complex128 it is the complex test as written. For every other dtype it is exactly the symmetry predicate |
| `DensePredicates.AgreeEmpty` | ext/nmatrix/storage/dense.cpp:358-364 | equality over zero capacity holds whatever the buffers contain |
| `DensePredicates.BreakSymmetry` | ext/nmatrix/storage/dense.cpp:393-399 | overwriting one entry above the diagonal with a value unlike its mirror makes the matrix non-symmetric (row stride ≠ 1) |
| `DensePredicates.MirrorSlotsDiffer` | ext/nmatrix/storage/dense.cpp:395 | slots i·lda + j and j·lda + i differ for i ≠ j unless lda = 1 |
| `DensePredicates.HermitianAsWrittenIsNotConjugateSymmetry` | ext/nmatrix/storage/dense.cpp:374-381 | a 3 × 3 matrix that is conjugate symmetric yet fails the Hermitian test as written |
| `DenseCopy.CopyShape` | ext/nmatrix/storage/dense.cpp:295-298 | the backward loop copies the whole shape into a fresh array |
| `DenseCopy.Copy` | ext/nmatrix/storage/dense.cpp:285-308 | null iff the shape allocation failed. Otherwise a fresh root with the same dtype, rank and shape, zero offsets, count 1 and a fresh buffer equal to the source's first capacity slots, so `EqEq` holds between the two |
| `DenseCopy.CastCopy` | ext/nmatrix/storage/dense.cpp:314-349 | null iff the shape allocation failed. Otherwise a fresh root of the new dtype with the same shape. Slot k is the source's slot k when the dtype is unchanged and its conversion otherwise |
| `DenseCopy.CastToSameDtypeIsCopy` | ext/nmatrix/storage/dense.cpp:337-340 | casting to the own dtype gives the same shape, dtype, offsets and contents as copying, in a separate buffer |
| `DenseCopy.CastRoundTrip` | ext/nmatrix/storage/dense.cpp:337-345 | for any target dtype, casting away and back with mutually inverse conversions restores every slot |
| `DenseScenarios.SetThenGet` | ext/nmatrix/storage/dense.cpp:173-201 | a one-element `get` after a `set` at the same slice addresses the value just written |
| `DenseScenarios.ViewRoundTrip` | ext/nmatrix/storage/dense.cpp:141-149 | taking a view and releasing it with `DeleteRef` restores the parent's count |
| `DenseScenarios.NestedViewOutlivesRoot` | ext/nmatrix/storage/dense.cpp:126-191 | from a root with count 1, a view of a view raises the first view's count only; after releasing the first view, `Delete` releases the root while the nested view still shares its buffer |
| `DenseScenarios.TileSixFromTwo` | ext/nmatrix/storage/dense.cpp:98-117 | shape [6] with initial values [1, 2] yields 1, 2, 1, 2, 1, 2 |

`DenseScenarios.ViewLifecycle` (dense.cpp:126-191) proves a whole lifecycle on a 4 × 4 root. It
takes a view at (1, 2), and a write through the view shows up at the matching root coordinate.
`Delete` refuses the root while the view is alive. After `DeleteRef` on the view, `Delete`
releases it.

## Left out

- `dense_storage_mark` (dense.cpp:154-164) is left out. It is a garbage-collector hook that calls
  into the Ruby runtime.
- Dense.Delete: Dafny has no deallocation, so `Delete` reports in `released` whether the source
  would free the shape, offset, buffer and record. The frees in `DeleteRef` and the `free` of a
  non-adopted initial buffer after tiling are not modelled either.
- Byte-level memory is not modelled: `DTYPE_SIZES`, `memcpy` and the `char*` arithmetic. The
  buffer holds one slot of type `T` per element, and each `memcpy` is a slot-wise copy.
- The dtype dispatch tables (`LR_DTYPE_TEMPLATE_TABLE`, `DTYPE_TEMPLATE_TABLE`) and the
  dispatchers `dense_storage_eqeq`, `dense_storage_is_symmetric` and `dense_storage_cast_copy`
  are folded into the generic operations. The headers that define them are not part of this
  model.
- DensePredicates.EqEq: left and right slots are compared by equality of `T`. The native
  mixed-type numeric comparison between two element types is not modelled.
- Numeric conversion between element types and complex conjugation are not modelled. They
  involve floating point, and they are the uninterpreted parameters `convert` and `conj`.
- `storage_count_max_elements` and the `DENSE_STORAGE`/`SLICE` definitions are not part of this
  model. The capacity is defined as the product of the extents. The record fields follow their
  use in dense.cpp. The dtype tag enumerates NMatrix's
  element types, and only the two complex tags affect behaviour here.
- Dense.DeleteRef: the release of the view's shape, offset and record (dense.cpp:145-147) is not
  modelled, and the contract promises nothing about the view afterwards; a caller must not use it
  again, since in the source any further use reads freed memory. The declared type of `count` is
  in a header that is not part of this model, so the count is an unbounded integer and its
  fixed-width overflow or wrap-around is not modelled.
- DenseCopy.CastCopy: the model converts each source slot read as the source's own dtype into a
  slot of the new dtype, and `DensePredicates.EqEq` reads each buffer as its own dtype. The
  source cannot do both: `dense_storage_eqeq` picks `ttable[left->dtype][right->dtype]`
  (dense.cpp:217), while `dense_storage_cast_copy` picks `ttable[new_dtype][rhs->dtype]`
  (dense.cpp:279) for a template that reads the source as its first type parameter (dense.cpp:319)
  and writes the second (dense.cpp:320, 334). Both come from the same table macro, so for
  differing dtypes one of the two dispatchers reinterprets a buffer as the other element type.
  That reinterpretation is not modelled; the contracts hold only for the reading in which each
  buffer is read as its own dtype.
- Dense.DenseStorage.Create: the caller's `elements_length` is the length of the `initial`
  array. A buffer created without initial values holds unspecified contents, and the contract
  says nothing about them, just as the source leaves the memory uninitialised. When the capacity
  is 0 and no initial buffer is given, the source adopts the NULL pointer, while the model
  allocates an empty array. No operation can tell the two apart.
- `ALLOC` raising an exception on exhausted memory is not modelled: `Create` always succeeds.
  Only the shape-array check in the copy paths is modelled, as `shapeAllocated`.
- Out-of-range slices and buffer reads are undefined behaviour in the source. Here they are
  preconditions: `Set` and the scans require their slots to lie inside the buffer. A one-element
  `Get` returns the slot index instead of an address.
- Fixed-width index arithmetic is not modelled. That covers wrap-around of `size_t` positions and
  loop counters, the 32-bit `unsigned int` loop indices of the symmetry tests, and the `int`
  index of the equality scan. Capacities are far below those limits in practice. The `int lda`
  of the symmetry tests is a `nat`, so a negative row stride is not modelled.
