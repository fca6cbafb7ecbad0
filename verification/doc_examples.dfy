/** The crate-level example of src/lib.rs and the shape errors it implies,
    on concrete matrices. Each matrix is pinned down by a predicate on its
    fields and passed in as a parameter. */
module DocExamples {
  import opened Tree
  import opened Results
  import opened Matrix
  import opened Ops

  /** `mat![[1, 2, 3], [3, 4, 5]]`, a 2 by 3 matrix. */
  predicate IsA(a: Mat)
  {
    a.nrows == 2 && a.ncols == 3 && a.buffer == [1, 2, 3, 3, 4, 5]
  }

  /** `mat![[1, 2], [3, 4], [5, 6]]`, a 3 by 2 matrix. */
  predicate IsB(b: Mat)
  {
    b.nrows == 3 && b.ncols == 2 && b.buffer == [1, 2, 3, 4, 5, 6]
  }

  /** `&a * &b` builds a 2 by 2 product without computing anything, and
      `get(0, 0)` on it yields 1*1 + 2*3 + 3*5. */
  lemma ProductExample(a: Mat, b: Mat)
    requires IsA(a) && IsB(b)
    ensures Mul(Ref(a), Ref(b)).Ok?
    ensures var p := Mul(Ref(a), Ref(b)).value;
            Constructible(p) && Size(p) == (2, 2) && Get(p, 0, 0) == Ok(22)
  {
    var l, r := Ref(a), Ref(b);
    assert Cols(l) == 3 && Rows(r) == 3 && WellFormed(l) && WellFormed(r);
    assert UnsafeGet(l, 0, 0) == 1 && UnsafeGet(l, 0, 1) == 2 && UnsafeGet(l, 0, 2) == 3;
    assert UnsafeGet(r, 0, 0) == 1 && UnsafeGet(r, 1, 0) == 3 && UnsafeGet(r, 2, 0) == 5;
    assert Accumulate(l, r, 0, 0, 1) == 1;
    assert Accumulate(l, r, 0, 0, 2) == 7;
    assert Accumulate(l, r, 0, 0, 3) == 22;
  }

  /** The same product read just past each of its dimensions panics. */
  lemma ProductExampleBounds(a: Mat, b: Mat)
    requires IsA(a) && IsB(b)
    ensures WellFormed(Product(Ref(a), Ref(b)))
    ensures Get(Product(Ref(a), Ref(b)), 2, 0) == Err(IndexOutOfBounds)
    ensures Get(Product(Ref(a), Ref(b)), 0, 2) == Err(IndexOutOfBounds)
  {
    assert Cols(Ref(a)) == 3 && Rows(Ref(b)) == 3;
    assert Rows(Product(Ref(a), Ref(b))) == 2 && Cols(Product(Ref(a), Ref(b))) == 2;
  }

  /** A 2 by 3 matrix times a 2 by 2 matrix is rejected before anything can
      be read, and so is adding a matrix of another shape to a product or
      adding to anything that is not a product. */
  lemma ShapeErrors(a: Mat, b: Mat, c: Mat)
    requires IsA(a) && IsB(b)
    requires c.nrows == 2 && c.ncols == 2
    ensures Mul(Ref(a), Ref(c)) == Err(DimensionMismatch)
    ensures Add(Product(Ref(a), Ref(b)), Ref(a)) == Err(DimensionMismatch)
    ensures Add(Product(Ref(a), Ref(b)), Ref(c)).Ok?
    ensures Add(Ref(c), Ref(c)) == Err(NoImpl)
    ensures Mul(Product(Ref(a), Ref(b)), Ref(c)) == Err(NoImpl)
  {
  }

  /** `a.t() * &a` is accepted: the transpose's column count is `a`'s row
      count; its top-left element is the squared norm of `a`'s first column. */
  lemma GramExample(a: Mat)
    requires IsA(a)
    ensures Mul(T(Ref(a)), Ref(a)).Ok?
    ensures var g := Mul(T(Ref(a)), Ref(a)).value;
            WellFormed(g) && Size(g) == (3, 3) && Get(g, 0, 0) == Ok(10)
  {
    var l, r := Transpose(Ref(a)), Ref(a);
    assert Cols(l) == 2 && Rows(r) == 2 && WellFormed(l) && WellFormed(r);
    assert UnsafeGet(r, 0, 0) == 1 && UnsafeGet(r, 1, 0) == 3;
    assert UnsafeGet(l, 0, 0) == 1 && UnsafeGet(l, 0, 1) == 3;
    assert Accumulate(l, r, 0, 0, 1) == 1;
    assert Accumulate(l, r, 0, 0, 2) == 10;
  }
}
