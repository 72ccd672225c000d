/** Clients of the dense storage record: what callers can conclude from the
    contracts of create, get, set and the two teardowns alone. */
module DenseScenarios {
  import opened Indexing
  import opened Dense

  /** Writing one element and then asking for the same one-element slice
      addresses the slot that now holds the written value. */
  method SetThenGet<T(0)>(s: DenseStorage<T>, slice: Slice, val: T) returns (read: T)
    requires s.Valid() && |slice.coords| == s.rank && slice.isOneElement
    requires Linear(slice.coords, s.offset, s.src.shape) < s.elements.Length
    modifies s.elements, s`count
    ensures read == val && s.count == old(s.count)
  {
    s.Set(slice, val);
    var r := s.Get(slice);
    read := s.elements[r.index];
  }

  /** Taking a view and releasing it leaves the count where it was. */
  method ViewRoundTrip<T(0)>(s: DenseStorage<T>, slice: Slice)
    requires s.Valid() && !slice.isOneElement
    requires |slice.coords| == s.rank && |slice.lens| == s.rank
    modifies s`count
    ensures s.count == old(s.count)
  {
    var r := s.Get(slice);
    DeleteRef(r.view);
  }

  /** A view of a view holds a count on the first view, not on the root: with
      the root's count at 1, releasing the first view lets the root be released
      while the second view still shares its buffer. */
  method NestedViewOutlivesRoot<T(0)>(s: DenseStorage<T>, a: Slice, b: Slice)
    returns (inner: DenseStorage<T>, released: bool)
    requires s.Valid() && s.count == 1
    requires !a.isOneElement && |a.coords| == s.rank && |a.lens| == s.rank
    requires !b.isOneElement && |b.coords| == s.rank && |b.lens| == s.rank
    modifies s`count
    ensures released && inner.elements == s.elements
  {
    var first := s.Get(a);
    var second := first.view.Get(b);
    inner := second.view;
    DeleteRef(first.view);
    released := Delete(s);
  }

  /** A 4 x 4 root storage and a 2 x 2 view of it at (1, 2): a write through
      the view at (r, c) lands where the root addresses (1 + r, 2 + c); while
      the view is alive the root cannot be released, and once the view is
      released it can. */
  method ViewLifecycle(root: DenseStorage<int>, val: int)
    requires root.Valid() && root.IsRoot() && root.shape == [4, 4] && root.count == 1
    modifies root`count, root.elements
  {
    var got := root.Get(Slice([1, 2], [2, 2], false));
    var view := got.view;
    assert root.count == 2;

    assert [4, 4][1..] == [4] && [4, 4][2..] == [] && [4][1..] == [];
    assert Linear([1, 1], [1, 2], [4, 4]) == 11;
    view.Set(Slice([1, 1], [], true), val);
    var where := root.Get(Slice([2, 3], [], true));
    assert root.offset == [0, 0];
    LinearFromShift([1, 1], [1, 2], [0, 0], [4, 4], 0);
    assert AddCoords([1, 1], [1, 2]) == [2, 3];
    assert root.elements[where.index] == val;

    var released := Delete(root);
    assert !released;
    DeleteRef(view);
    released := Delete(root);
    assert released;
  }

  /** Creating a storage of shape [6] from the initial values [1, 2] repeats
      them: 1, 2, 1, 2, 1, 2. */
  method TileSixFromTwo(initial: array<int>) returns (s: DenseStorage<int>)
    requires initial[..] == [1, 2]
    ensures s.elements[..] == [1, 2, 1, 2, 1, 2]
  {
    s := new DenseStorage.Create(Int32, [6], 1, initial);
    assert Product([6]) == 6;
    assert forall k :: 0 <= k < 6 ==> s.elements[k] == initial[k % 2];
  }
}
