/** The construction sites of src/lib.rs: the `Mul` impls for `&Mat` and
    `Transpose<L>`, the `Add` impl for `Product<L, R>`, and `t()`.

    In the source a construction whose operand types have no impl, or whose
    dimensions violate the impl's bounds, does not compile. Here each
    operator returns `Err` in exactly those cases, so that a tree the source
    could never build cannot come out of these functions. */
module Ops {
  import opened Tree
  import opened Results
  import Matrix

  datatype CompileError =
    | NoImpl             // no operator impl for the left operand's type
    | DimensionMismatch  // an impl exists but its dimension bound fails

  /** `lhs * rhs`. Only `&Mat` (bound `R::NROWS = NCOLS`) and `Transpose<L>`
      (bound `R::NROWS = L::NROWS`) can be multiplied; either way the
      inner dimensions must agree, and the product is lhs's rows by rhs's
      columns. */
  function Mul(lhs: Expr, rhs: Expr): (res: Result<Expr, CompileError>)
    ensures res.Ok? <==> (lhs.Ref? || lhs.Transpose?) && Cols(lhs) == Rows(rhs)
    ensures res.Err? ==> (res.error == NoImpl <==> !(lhs.Ref? || lhs.Transpose?))
    ensures res.Ok? ==> res.value == Product(lhs, rhs)
    ensures res.Ok? ==> Rows(res.value) == Rows(lhs) && Cols(res.value) == Cols(rhs)
    ensures res.Ok? ==> (WellFormed(res.value) <==> WellFormed(lhs) && WellFormed(rhs))
  {
    match lhs
    case Ref(a) =>
      if Rows(rhs) == a.ncols then Ok(Product(lhs, rhs)) else Err(DimensionMismatch)
    case Transpose(m) =>
      if Rows(rhs) == Rows(m) then Ok(Product(lhs, rhs)) else Err(DimensionMismatch)
    case _ => Err(NoImpl)
  }

  /** `lhs + rhs`. Only a product can be added to, and only a right operand
      with exactly the product's rows and columns; the sum keeps that shape. */
  function Add(lhs: Expr, rhs: Expr): (res: Result<Expr, CompileError>)
    ensures res.Ok? <==> lhs.Product? && Rows(rhs) == Rows(lhs) && Cols(rhs) == Cols(lhs)
    ensures res.Err? ==> (res.error == NoImpl <==> !lhs.Product?)
    ensures res.Ok? ==> res.value == Sum(lhs, rhs)
    ensures res.Ok? ==> Rows(res.value) == Rows(lhs) && Cols(res.value) == Cols(lhs)
    ensures res.Ok? ==> (WellFormed(res.value) <==> WellFormed(lhs) && WellFormed(rhs))
  {
    match lhs
    case Product(l, r) =>
      if Rows(rhs) == Rows(l) && Cols(rhs) == Cols(r) then Ok(Sum(lhs, rhs))
      else Err(DimensionMismatch)
    case _ => Err(NoImpl)
  }

  /** The trees a program can build: dense matrices from a `mat!` literal
      (which guarantees the buffer length), then any number of `t()`, `*`
      and `+` applications that the operator impls accept. */
  predicate Constructible(e: Expr)
  {
    match e
    case Ref(a) => WellSized(a)
    case Transpose(m) => Constructible(m)
    case Sum(l, r) => Add(l, r).Ok? && Constructible(l) && Constructible(r)
    case Product(l, r) => Mul(l, r).Ok? && Constructible(l) && Constructible(r)
  }

  /** Every buildable tree satisfies the shape rules evaluation relies on,
      so `get` on it never reaches an out-of-bounds unchecked read. */
  lemma {:induction false} ConstructibleIsWellFormed(e: Expr)
    requires Constructible(e)
    ensures WellFormed(e)
    ensures forall r: nat, c: nat :: AllCallsInBounds(e, r, c) <==> InBounds(e, r, c)
  {
    match e {
      case Ref(_) =>
      case Transpose(m) =>
        ConstructibleIsWellFormed(m);
      case Sum(l, r) =>
        ConstructibleIsWellFormed(l);
        ConstructibleIsWellFormed(r);
      case Product(l, r) =>
        ConstructibleIsWellFormed(l);
        ConstructibleIsWellFormed(r);
    }
    forall r: nat, c: nat ensures AllCallsInBounds(e, r, c) <==> InBounds(e, r, c) {
      EvaluationStaysInBounds(e, r, c);
    }
  }

  /** The shape rules are strictly weaker than what the operators allow:
      a sum of two dense matrices is well formed, yet no impl builds it. */
  lemma WellFormedIsNotConstructible()
    ensures var a := Ref(Mat(1, 1, [7]));
            WellFormed(Sum(a, a)) && !Constructible(Sum(a, a))
  {
  }

  /** The operators keep a program inside the buildable trees. */
  lemma ConstructionPreservesConstructible(lhs: Expr, rhs: Expr)
    requires Constructible(lhs) && Constructible(rhs)
    ensures Constructible(Matrix.T(lhs))
    ensures Mul(lhs, rhs).Ok? ==> Constructible(Mul(lhs, rhs).value)
    ensures Add(lhs, rhs).Ok? ==> Constructible(Add(lhs, rhs).value)
  {
  }
}
