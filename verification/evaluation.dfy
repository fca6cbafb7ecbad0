/** What the lazy nodes compute, stated against independent definitions:
    a product element is the dot product of a row of the left operand with
    a column of the right one, a sum adds pointwise and commutes, and the
    transpose of a product reads like the product of the transposes. */
module Evaluation {
  import opened Tree
  import opened Results
  import opened Matrix

  /** The dot product of two equally long vectors, summed from the front. */
  function Dot(xs: seq<int>, ys: seq<int>): int
    requires |xs| == |ys|
  {
    if |xs| == 0 then 0 else xs[0] * ys[0] + Dot(xs[1..], ys[1..])
  }

  /** Extending both vectors by one entry adds that entry's product. */
  lemma {:induction false} DotSnoc(xs: seq<int>, ys: seq<int>, x: int, y: int)
    requires |xs| == |ys|
    ensures Dot(xs + [x], ys + [y]) == Dot(xs, ys) + x * y
  {
    if |xs| > 0 {
      assert (xs + [x])[1..] == xs[1..] + [x];
      assert (ys + [y])[1..] == ys[1..] + [y];
      DotSnoc(xs[1..], ys[1..], x, y);
    }
  }

  /** Row `r` of a matrix, as the elements `get` returns along it. */
  function Row(e: Expr, r: nat): (row: seq<int>)
    requires WellFormed(e) && r < Rows(e)
    ensures |row| == Cols(e)
    ensures forall j :: 0 <= j < |row| ==> Get(e, r, j) == Ok(row[j])
  {
    seq(Cols(e), j requires 0 <= j < Cols(e) => UnsafeGet(e, r, j))
  }

  /** Column `c` of a matrix, as the elements `get` returns down it. */
  function Column(e: Expr, c: nat): (col: seq<int>)
    requires WellFormed(e) && c < Cols(e)
    ensures |col| == Rows(e)
    ensures forall i :: 0 <= i < |col| ==> Get(e, i, c) == Ok(col[i])
  {
    seq(Rows(e), i requires 0 <= i < Rows(e) => UnsafeGet(e, i, c))
  }

  /** After `n` iterations the product loop holds the dot product of the
      first `n` entries of the row and the column. */
  lemma {:induction false} AccumulateIsDot(l: Expr, rr: Expr, r: nat, c: nat, n: nat)
    requires WellFormed(Product(l, rr)) && r < Rows(l) && c < Cols(rr) && n <= Cols(l)
    ensures Accumulate(l, rr, r, c, n) == Dot(Row(l, r)[..n], Column(rr, c)[..n])
  {
    if n > 0 {
      var row, col := Row(l, r), Column(rr, c);
      AccumulateIsDot(l, rr, r, c, n - 1);
      assert row[..n] == row[..n - 1] + [row[n - 1]];
      assert col[..n] == col[..n - 1] + [col[n - 1]];
      DotSnoc(row[..n - 1], col[..n - 1], row[n - 1], col[n - 1]);
    }
  }

  /** A product element is the dot product of the left operand's row and
      the right operand's column; reads outside the product's dimensions
      panic. */
  lemma GetProduct(l: Expr, rr: Expr, r: nat, c: nat)
    requires WellFormed(Product(l, rr))
    ensures r < Rows(l) && c < Cols(rr) ==>
              Get(Product(l, rr), r, c) == Ok(Dot(Row(l, r), Column(rr, c)))
    ensures r >= Rows(l) || c >= Cols(rr) ==> Get(Product(l, rr), r, c) == Err(IndexOutOfBounds)
  {
    if r < Rows(l) && c < Cols(rr) {
      var k := Cols(l);
      AccumulateIsDot(l, rr, r, c, k);
      assert Row(l, r)[..k] == Row(l, r);
      assert Column(rr, c)[..k] == Column(rr, c);
    }
  }

  /** With no inner dimension the accumulator never moves off zero. */
  lemma EmptyProductIsZero(l: Expr, rr: Expr, r: nat, c: nat)
    requires WellFormed(l) && WellFormed(rr) && Cols(l) == 0 && Rows(rr) == 0
    requires r < Rows(l) && c < Cols(rr)
    ensures Get(Product(l, rr), r, c).Ok?
    ensures Get(Product(l, rr), r, c).value == 0
  {
    assert UnsafeGet(Product(l, rr), r, c) == Accumulate(l, rr, r, c, 0);
  }

  /** The imperative product loop computes the dot product of a row and a
      column. */
  method ProductElementIsDot(l: Expr, rr: Expr, r: nat, c: nat) returns (sum: int)
    requires WellFormed(Product(l, rr)) && r < Rows(l) && c < Cols(rr)
    ensures sum == Dot(Row(l, r), Column(rr, c))
  {
    sum := ProductElement(l, rr, r, c);
    GetProduct(l, rr, r, c);
  }

  /** A sum element adds the two operands' elements at the same index. */
  lemma GetSum(l: Expr, rr: Expr, r: nat, c: nat)
    requires WellFormed(Sum(l, rr))
    ensures Get(Sum(l, rr), r, c).Ok? <==> Get(l, r, c).Ok? && Get(rr, r, c).Ok?
    ensures Get(Sum(l, rr), r, c).Ok? ==>
              Get(Sum(l, rr), r, c).value == Get(l, r, c).value + Get(rr, r, c).value
  {
  }

  /** With integer elements a sum reads the same with its operands swapped. */
  lemma SumCommutes(a: Expr, b: Expr, r: nat, c: nat)
    requires WellFormed(Sum(a, b))
    ensures WellFormed(Sum(b, a))
    ensures Get(Sum(a, b), r, c) == Get(Sum(b, a), r, c)
  {
  }

  /** Accumulating `a * b` at (c, r) and `b^T * a^T` at (r, c) adds the same
      products in the same order. */
  lemma {:induction false} AccumulateTransposed(a: Expr, b: Expr, r: nat, c: nat, n: nat)
    requires WellFormed(Product(a, b)) && c < Rows(a) && r < Cols(b) && n <= Cols(a)
    ensures WellFormed(Product(Transpose(b), Transpose(a)))
    ensures Accumulate(a, b, c, r, n) == Accumulate(Transpose(b), Transpose(a), r, c, n)
  {
    if n > 0 {
      AccumulateTransposed(a, b, r, c, n - 1);
    }
  }

  /** The transpose of a product reads like the product of the transposes
      in reverse order, at every index pair. */
  lemma TransposeOfProduct(a: Expr, b: Expr, r: nat, c: nat)
    requires WellFormed(Product(a, b))
    ensures WellFormed(Product(T(b), T(a)))
    ensures Get(T(Product(a, b)), r, c) == Get(Product(T(b), T(a)), r, c)
  {
    GetTranspose(Product(a, b), r, c);
    if r < Cols(b) && c < Rows(a) {
      var tb, ta := Transpose(b), Transpose(a);
      AccumulateTransposed(a, b, r, c, Cols(a));
      assert UnsafeGet(Product(a, b), c, r) == Accumulate(a, b, c, r, Cols(a));
      assert UnsafeGet(Product(tb, ta), r, c) == Accumulate(tb, ta, r, c, Cols(a));
    }
  }
}
