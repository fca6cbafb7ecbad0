/** The expression tree of src/lib.rs: dense row-major storage and the three
    lazy composite nodes, their dimensions, the dimension rules under which
    a tree may be evaluated, and the unchecked element accessor that every
    node implements by delegating to its operands.

    The source keeps the dimensions in the type system (typenum naturals);
    here they are `nat` fields of the dense leaf, and the counts of composite
    nodes are computed from their operands exactly as the `Matrix` impls
    declare them. */
module Tree {
  import Scalar

  /** Statically sized storage: `nrows * ncols` elements in row-major order.
      The length of `buffer` is what the `mat!` literal guarantees; it is
      part of `WellFormed`, not of the type. */
  datatype Mat = Mat(nrows: nat, ncols: nat, buffer: seq<int>)

  /** The `mat!` literal's guarantee: the buffer holds `nrows * ncols`
      elements. */
  predicate WellSized(a: Mat)
  {
    |a.buffer| == RowStart(a.nrows, a.ncols)
  }

  /** An expression tree. `Ref` is a borrowed `&Mat` (only the reference
      implements the matrix traits); the other three own their operands by
      copy and own no elements. */
  datatype Expr =
    | Ref(mat: Mat)
    | Transpose(m: Expr)
    | Sum(lhs: Expr, rhs: Expr)
    | Product(lhs: Expr, rhs: Expr)

  /** `NROWS` of each node: a transpose reports its operand's column count,
      a sum and a product their left operand's row count. */
  function Rows(e: Expr): nat
  {
    match e
    case Ref(a) => a.nrows
    case Transpose(m) => Cols(m)
    case Sum(l, _) => Rows(l)
    case Product(l, _) => Rows(l)
  }

  /** `NCOLS` of each node: a sum reports its left operand's, a product its
      right operand's. */
  function Cols(e: Expr): nat
  {
    match e
    case Ref(a) => a.ncols
    case Transpose(m) => Rows(m)
    case Sum(l, _) => Cols(l)
    case Product(_, r) => Cols(r)
  }

  predicate InBounds(e: Expr, r: nat, c: nat)
  {
    r < Rows(e) && c < Cols(e)
  }

  /** The shape rules the source's trait bounds impose at every construction
      site: a dense leaf holds exactly rows*cols elements, a sum's operands
      have the same shape, and a product's left column count equals its
      right row count. */
  predicate WellFormed(e: Expr)
  {
    match e
    case Ref(a) => WellSized(a)
    case Transpose(m) => WellFormed(m)
    case Sum(l, r) => WellFormed(l) && WellFormed(r) && Rows(r) == Rows(l) && Cols(r) == Cols(l)
    case Product(l, r) => WellFormed(l) && WellFormed(r) && Cols(l) == Rows(r)
  }

  /** `r * ncols`, accumulated one row at a time: the position of the first
      element of row `r`, and for `r == nrows` the length of the buffer. */
  function RowStart(r: nat, ncols: nat): nat
  {
    if r == 0 then 0 else RowStart(r - 1, ncols) + ncols
  }

  /** The repeated addition is the multiplication the source performs. */
  lemma {:induction false} RowStartIsProduct(r: nat, ncols: nat)
    ensures RowStart(r, ncols) == r * ncols
  {
    if r > 0 {
      RowStartIsProduct(r - 1, ncols);
      assert (r - 1) * ncols + ncols == r * ncols;
    }
  }

  /** Later rows start later. */
  lemma {:induction false} RowStartMonotone(x: nat, y: nat, ncols: nat)
    requires x <= y
    ensures RowStart(x, ncols) <= RowStart(y, ncols)
  {
    if x < y {
      RowStartMonotone(x, y - 1, ncols);
    }
  }

  /** Row-major position of element (r, c) in a dense buffer, `r * ncols + c`. */
  function Offset(a: Mat, r: nat, c: nat): nat
  {
    RowStart(r, a.ncols) + c
  }

  /** A valid index pair of a well-sized buffer lands inside the buffer. */
  lemma OffsetInBuffer(a: Mat, r: nat, c: nat)
    requires WellSized(a)
    requires r < a.nrows && c < a.ncols
    ensures Offset(a, r, c) < |a.buffer|
  {
    RowStartMonotone(r + 1, a.nrows, a.ncols);
  }

  /** Row-major layout is a bijection between valid index pairs and buffer
      positions: the offset of (r, c) is `r * ncols + c`, it decodes back to
      (r, c), and every position is the offset of the pair it decodes to. */
  lemma OffsetRoundTrip(a: Mat, r: nat, c: nat, k: nat)
    requires c < a.ncols
    ensures Offset(a, r, c) == r * a.ncols + c
    ensures Offset(a, r, c) / a.ncols == r && Offset(a, r, c) % a.ncols == c
    ensures Offset(a, k / a.ncols, k % a.ncols) == k
  {
    RowStartIsProduct(r, a.ncols);
    DivModOfRowMajor(a.ncols, r, c);
    RowStartIsProduct(k / a.ncols, a.ncols);
  }

  /** Euclidean division undoes `r * n + c` when `c < n`. */
  lemma DivModOfRowMajor(n: nat, r: nat, c: nat)
    requires c < n
    ensures (r * n + c) / n == r && (r * n + c) % n == c
  {
    var o := r * n + c;
    var q, s := o / n, o % n;
    assert (q - r) * n == c - s;
    if q > r {
      MulAtLeast(q - r, n);
      assert false;
    } else if q < r {
      MulAtLeast(r - q, n);
      assert false;
    }
  }

  lemma MulAtLeast(x: nat, k: nat)
    requires x >= 1
    ensures x * k >= k
  {
    assert x * k == k + (x - 1) * k;
  }

  /** `unsafe_get`: the element at (r, c), computed on demand by descending
      the tree. The precondition is the unsafe contract: the indices are
      within the node's own dimensions. Dafny checks it at every recursive
      call, so every call the evaluator makes satisfies it. */
  function UnsafeGet(e: Expr, r: nat, c: nat): int
    requires WellFormed(e) && InBounds(e, r, c)
    decreases e, 1
  {
    match e
    case Ref(a) =>
      OffsetInBuffer(a, r, c);
      a.buffer[Offset(a, r, c)]
    case Transpose(m) => UnsafeGet(m, c, r)
    case Sum(l, rr) => UnsafeGet(l, r, c) + UnsafeGet(rr, r, c)
    case Product(l, rr) => Accumulate(l, rr, r, c, Cols(l))
  }

  /** The accumulator of the product's loop after its first `n` iterations:
      starts at zero and adds `l[r, i] * rr[i, c]` for i = 0, 1, ..., n-1. */
  function Accumulate(l: Expr, rr: Expr, r: nat, c: nat, n: nat): int
    requires WellFormed(Product(l, rr)) && r < Rows(l) && c < Cols(rr) && n <= Cols(l)
    decreases Product(l, rr), 0, n
  {
    if n == 0 then Scalar.Zero()
    else Accumulate(l, rr, r, c, n - 1) + UnsafeGet(l, r, n - 1) * UnsafeGet(rr, n - 1, c)
  }

  /** The product node's `unsafe_get` loop, written imperatively. */
  method ProductElement(l: Expr, rr: Expr, r: nat, c: nat) returns (sum: int)
    requires WellFormed(Product(l, rr)) && r < Rows(l) && c < Cols(rr)
    ensures sum == UnsafeGet(Product(l, rr), r, c)
    ensures Cols(l) == 0 ==> sum == 0
  {
    sum := Scalar.Zero();
    var k := Cols(l);
    for i := 0 to k
      invariant sum == Accumulate(l, rr, r, c, i)
    {
      sum := sum + UnsafeGet(l, r, i) * UnsafeGet(rr, i, c);
    }
  }

  /** True iff evaluating `e` at (r, c) only ever issues unchecked reads
      within the dimensions of the node read, and every dense read falls
      inside its buffer. */
  ghost predicate AllCallsInBounds(e: Expr, r: nat, c: nat)
  {
    InBounds(e, r, c) &&
    match e
    case Ref(a) => Offset(a, r, c) < |a.buffer|
    case Transpose(m) => AllCallsInBounds(m, c, r)
    case Sum(l, rr) => AllCallsInBounds(l, r, c) && AllCallsInBounds(rr, r, c)
    case Product(l, rr) =>
      forall i: nat :: i < Cols(l) ==> AllCallsInBounds(l, r, i) && AllCallsInBounds(rr, i, c)
  }

  /** The safety invariant: in a well-formed tree, a read that passes the
      root's bounds check reaches only in-bounds unchecked reads. */
  lemma {:induction false} EvaluationStaysInBounds(e: Expr, r: nat, c: nat)
    requires WellFormed(e)
    ensures AllCallsInBounds(e, r, c) <==> InBounds(e, r, c)
  {
    if InBounds(e, r, c) {
      match e
      case Ref(a) =>
        OffsetInBuffer(a, r, c);
      case Transpose(m) =>
        EvaluationStaysInBounds(m, c, r);
      case Sum(l, rr) =>
        EvaluationStaysInBounds(l, r, c);
        EvaluationStaysInBounds(rr, r, c);
      case Product(l, rr) =>
        forall i: nat | i < Cols(l)
          ensures AllCallsInBounds(l, r, i) && AllCallsInBounds(rr, i, c)
        {
          EvaluationStaysInBounds(l, r, i);
          EvaluationStaysInBounds(rr, i, c);
        }
    }
  }

  /** Without the sum's shape rule the same evaluator leaves a buffer: a
      2x2 matrix plus a 1x1 matrix, read at (1, 1). */
  lemma MismatchedSumReadsOutOfBounds()
    ensures var s := Sum(Ref(Mat(2, 2, [1, 2, 3, 4])), Ref(Mat(1, 1, [5])));
            !WellFormed(s) && InBounds(s, 1, 1) && !AllCallsInBounds(s, 1, 1)
  {
  }
}
