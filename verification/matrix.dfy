/** The `Matrix` and `Transpose` traits of src/traits.rs: the provided
    methods every matrix-like value gets on top of its `unsafe_get` and its
    two type-level dimensions. */
module Matrix {
  import opened Tree
  import opened Results

  /** The `assert!` in `get` failing: the library's only runtime error. */
  datatype Panic = IndexOutOfBounds

  /** `size`: the pair of type-level dimensions. It bounds exactly the index
      pairs `get` accepts; for a dense leaf it accounts for every element. */
  function Size(e: Expr): (s: (nat, nat))
    ensures s.0 == Rows(e) && s.1 == Cols(e)
    ensures WellFormed(e) && e.Ref? ==> RowStart(s.0, s.1) == |e.mat.buffer|
    ensures forall r: nat, c: nat :: InBounds(e, r, c) <==> r < s.0 && c < s.1
  {
    (Rows(e), Cols(e))
  }

  /** `nrows`: the first component of `size`, the node's row count. */
  function NRows(e: Expr): (n: nat)
    ensures n == Rows(e)
  {
    Size(e).0
  }

  /** `ncols`: the second component of `size`, the node's column count. */
  function NCols(e: Expr): (n: nat)
    ensures n == Cols(e)
  {
    Size(e).1
  }

  /** `get`: checks both indices against the dimensions, panicking if
      either is out of range, and otherwise returns what the unchecked read
      returns. */
  function Get(e: Expr, r: nat, c: nat): (res: Result<int, Panic>)
    requires WellFormed(e)
    ensures res.Ok? <==> InBounds(e, r, c)
    ensures !InBounds(e, r, c) ==> res == Err(IndexOutOfBounds)
    ensures res.Ok? ==> InBounds(e, r, c) && res.value == UnsafeGet(e, r, c)
  {
    if r < NRows(e) && c < NCols(e) then Ok(UnsafeGet(e, r, c)) else Err(IndexOutOfBounds)
  }

  /** `t`: available on every matrix, never fails, and wraps the receiver
      unchanged in a node whose dimensions are swapped. */
  function T(e: Expr): (t: Expr)
    ensures t.Transpose? && t.m == e
    ensures Rows(t) == Cols(e) && Cols(t) == Rows(e)
    ensures WellFormed(t) <==> WellFormed(e)
  {
    Transpose(e)
  }

  /** Reading a dense matrix returns the element stored at the row-major
      offset of (r, c); any index at or past a dimension panics. */
  lemma GetDense(a: Mat, r: nat, c: nat)
    requires WellSized(a)
    ensures r < a.nrows && c < a.ncols ==>
              Offset(a, r, c) < |a.buffer| && Get(Ref(a), r, c) == Ok(a.buffer[Offset(a, r, c)])
    ensures r >= a.nrows || c >= a.ncols ==> Get(Ref(a), r, c) == Err(IndexOutOfBounds)
  {
    if r < a.nrows && c < a.ncols {
      OffsetInBuffer(a, r, c);
    }
  }

  /** Every element placed in a dense buffer is returned by `get` at the
      index pair that row-major order assigns to its position. */
  lemma GetDenseEveryPosition(a: Mat, k: nat)
    requires WellSized(a)
    requires k < |a.buffer|
    ensures a.ncols > 0
    ensures Get(Ref(a), k / a.ncols, k % a.ncols) == Ok(a.buffer[k])
  {
    var n := a.ncols;
    if n == 0 {
      RowStartIsProduct(a.nrows, n);
      assert false;
    }
    OffsetRoundTrip(a, 0, 0, k);
    var r := k / n;
    if r >= a.nrows {
      RowStartMonotone(a.nrows, r, n);
      assert false;
    }
  }

  /** Transposing swaps the indices of every read, including the ones that
      fail: `t().get(r, c)` is `get(c, r)`. */
  lemma GetTranspose(m: Expr, r: nat, c: nat)
    requires WellFormed(m)
    ensures Get(T(m), r, c) == Get(m, c, r)
  {
  }

  /** Transposing twice gives back the same reads at every index pair. */
  lemma DoubleTranspose(m: Expr, r: nat, c: nat)
    requires WellFormed(m)
    ensures Get(T(T(m)), r, c) == Get(m, r, c)
  {
    GetTranspose(T(m), r, c);
    GetTranspose(m, c, r);
  }
}
