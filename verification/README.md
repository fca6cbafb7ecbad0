# mat: lazy fixed-size matrix expressions, modelled in Dafny

`mat` is a `no_std` Rust library for matrices whose dimensions are fixed
before anything is read. `+`, `*` and `t()` do not compute anything. They
build an expression tree out of four node kinds:

- dense row-major storage, `Mat`, reached through a borrowed `&Mat`;
- `Transpose`;
- `Sum`;
- `Product`.

Only the checked accessor `get(r, c)` computes anything. It checks the
indices against the root's dimensions and then walks the tree through the
unchecked `unsafe_get` of each node, computing only the values that one
element needs.

This project models that engine as an immutable Dafny datatype with pure
functions over it:

| module | file | models |
|---|---|---|
| `Tree` | tree.dfy | the node kinds (`Expr`, with `Ref(Mat)` for `&Mat`), `Rows`/`Cols` (the type-level `NROWS`/`NCOLS`), the shape rules as `WellFormed`, `UnsafeGet` with the product's accumulation as `Accumulate`, the imperative product loop, and the safety invariant `AllCallsInBounds` |
| `Matrix` | matrix.dfy | the provided methods of the `Matrix` and `Transpose` traits: `Get`, `Size`, `NRows`, `NCols`, `T` |
| `Ops` | ops.dfy | the construction impls `&Mat * R`, `Transpose<L> * R` and `Product<L, R> + RHS`, and `Constructible`, the set of trees those impls can build |
| `Evaluation` | evaluation.dfy | what a node computes, stated against an independent head-recursive dot product `Dot`: product elements, sums, commutativity, and transpose of a product |
| `Scalar` | scalar.dfy | `Zero` for the integer element types |
| `DocExamples` | doc_examples.dfy | the crate-level example (`(a * b).get(0, 0) == 22`) and the shape errors it implies |
| `Results` | results.dfy | `Result`, used for panics and for rejected constructions |

Design points:

- **Dimensions.** The source encodes dimensions as typenum type parameters. In this model they are `nat` fields of the dense leaf. The counts of composite nodes are computed as their `Matrix` impls declare them: a transpose swaps them; a sum takes its left operand's; a product takes the left's rows and the right's columns.
- **Shape rules.** The source's trait bounds become the predicate `WellFormed`. The `mat!` literal's guarantee, buffer length `== nrows * ncols`, is `Tree.WellSized`, the `Ref` case of `WellFormed`.
- **Row-major offset.** The source computes `r * NCOLS + c`. The model accumulates `r * ncols` one row at a time (`Tree.RowStart`), and `Tree.RowStartIsProduct` proves that this is the same product. This keeps multiplication of two unknowns out of the shape rules.
- **Construction.** In Rust an invalid construction is a compile error. `Ops.Mul` and `Ops.Add` return `Err` in exactly those cases: `NoImpl` when the left operand's type has no operator impl, and `DimensionMismatch` when the impl's dimension bound fails.
- **Errors from `get`.** The `assert!` in `get` becomes `Err(IndexOutOfBounds)`.
- **Preconditions.** `Get` requires `WellFormed`. For the crate's own nodes the shape agreement is established where a node is built: the `mat!` literal fixes the buffer length, and the `Mul` and `Add` impls carry the dimension bounds, while the nodes' fields are private. `Ops.ConstructibleIsWellFormed` proves that every tree these impls can build satisfies `WellFormed`.
- **Safety.** `UnsafeGet` requires the index pair to lie within the node's own dimensions. This is the unsafe contract of `unsafe_get`, and Dafny checks it at every recursive call. `Tree.EvaluationStaysInBounds` states the same invariant as a lemma.
- **Copy semantics.** Values are immutable, so evaluation cannot change an operand, and `Get` is a pure function of the tree. This matches the `Copy` bound on `UnsafeGet`.

Where the crate's documentation and its code differ, the model follows the
code:

- The crate documentation (src/lib.rs:7-13) speaks of adding and multiplying matrices in general. The code has exactly three operator impls: `&Mat * R`, `Transpose<L> * R` and `Product<L, R> + RHS`. A sum whose left operand is not a product cannot be built, and neither can a product whose left operand is a sum or a product. `Ops.Mul`, `Ops.Add` and `Ops.Constructible` model the code. `WellFormed` is the more general shape rule that evaluation needs, and `Ops.WellFormedIsNotConstructible` shows that the two differ.
- The `Matrix` impl for `Sum` reports the left operand's dimensions. It does not itself demand that the operands agree. The agreement comes only from the `Add` bound.

## Model

| member | source | states |
|---|---|---|
| Tree.RowStartIsProduct | src/lib.rs:184 | the start of row r, accumulated one row at a time, is `r * ncols`, the product the source computes |
| Tree.OffsetInBuffer | src/lib.rs:182-185 | for a buffer of exactly rows*cols elements, the row-major offset `r*ncols + c` of a valid (r, c) is inside the buffer, so the unchecked slice read is in range |
| Tree.OffsetRoundTrip | src/lib.rs:182-185 | the offset of (r, c) is `r * ncols + c`, and row-major layout is a bijection: that offset divides back to row r with remainder c, and every position is the offset of its own quotient/remainder pair |
| Tree.ProductElement | src/lib.rs:260-266 | the product's loop, starting from zero and adding `l(r,i) * r(i,c)` for i below the left's column count, returns the product node's unchecked element, and 0 when there is no inner dimension |
| Tree.EvaluationStaysInBounds | src/lib.rs:218-302 | in a well-formed tree, every unchecked read that evaluation of (r, c) reaches is within the read node's dimensions and every dense read is within its buffer, exactly when (r, c) is within the root's dimensions |
| Tree.MismatchedSumReadsOutOfBounds | src/lib.rs:269-280 | without the `Add` shape bound, the same evaluation reads outside an operand: a 2x2 plus a 1x1, read at (1, 1) |
| Matrix.Get | src/traits.rs:20-29 | `get` succeeds exactly when r < nrows and c < ncols, otherwise panics with an out-of-bounds error, and on success returns the unchecked read at the same indices |
| Matrix.Size | src/traits.rs:31-34 | `size` is `(NROWS, NCOLS)`, the node's row and column counts; it bounds exactly the index pairs `get` accepts, and for a dense matrix rows times columns (accumulated as `RowStart`) is the buffer length |
| Matrix.NRows | src/traits.rs:36-39 | `nrows` is the first component of `size`, the node's row count |
| Matrix.NCols | src/traits.rs:41-44 | `ncols` is the second component of `size`, the node's column count |
| Matrix.T | src/traits.rs:5-11 | `t()` never fails, wraps the receiver unchanged, swaps rows and columns, and is well formed exactly when the receiver is |
| Matrix.GetDense | src/lib.rs:182-185 | `get` on a dense matrix returns the buffer element at the row-major offset of (r, c) for valid indices, and panics at row nrows or column ncols and beyond |
| Matrix.GetDenseEveryPosition | src/lib.rs:182-185 | every element placed in the buffer is what `get` returns at the pair (k / ncols, k % ncols) of its position k |
| Matrix.GetTranspose | src/lib.rs:209-227 | reading a transpose at (r, c) gives exactly what reading the operand at (c, r) gives, panics included |
| Matrix.DoubleTranspose | src/lib.rs:224-227 | transposing twice reads the same as the original at every index pair |
| Evaluation.AccumulateIsDot | src/lib.rs:260-266 | after n iterations the product's accumulator holds the dot product of the first n entries of row r of the left operand and column c of the right |
| Evaluation.GetProduct | src/lib.rs:242-266 | a product has the left's rows and the right's columns; in bounds its element is the dot product of row r of the left and column c of the right, and out of bounds `get` panics |
| Evaluation.EmptyProductIsZero | src/lib.rs:261-265 | with inner dimension 0 the accumulator stays at `Zero::zero()`, so every element is 0 |
| Evaluation.ProductElementIsDot | src/lib.rs:260-266 | the imperative loop's result equals the independently defined dot product of the row and the column |
| Evaluation.GetSum | src/lib.rs:282-302 | a sum panics exactly when either operand would, and otherwise is the sum of the operands' elements at the same index |
| Evaluation.SumCommutes | src/lib.rs:300-302 | with integer elements a sum reads the same with its operands swapped, at every index pair |
| Evaluation.TransposeOfProduct | src/lib.rs:218-266 | the transpose of `a * b` reads like `b.t() * a.t()` at every index pair, and the latter satisfies the product's shape rule |
| Ops.Mul | src/lib.rs:188-240 | `*` is accepted exactly when the left operand is a `&Mat` or a `Transpose` and its column count equals the right's row count, with `NoImpl` for other left operands; the product has the left's rows and the right's columns and is well formed exactly when both operands are |
| Ops.Add | src/lib.rs:269-280 | `+` is accepted exactly when the left operand is a product and the right has the product's rows and columns, with `NoImpl` for other left operands; the sum keeps that shape |
| Ops.ConstructibleIsWellFormed | src/lib.rs:188-280 | every tree the operator impls can build satisfies the shape rules, so every read `get` admits stays in bounds all the way down |
| Ops.WellFormedIsNotConstructible | src/lib.rs:269-280 | the shape rules admit trees that no impl builds: a sum of two dense matrices |
| Ops.ConstructionPreservesConstructible | src/lib.rs:188-280 | `t()`, and any accepted `*` or `+`, of buildable trees is buildable |
| Scalar.Zero | src/traits.rs:58-76 | the zero every `zero!` impl returns is the additive identity, the only value that adding to itself leaves unchanged |
| DocExamples.ProductExample | src/lib.rs:21-38 | `&a * &b` for the 2x3 and 3x2 example matrices is accepted, buildable, 2x2, and its element (0, 0) is 22 |
| DocExamples.ProductExampleBounds | src/traits.rs:20-29 | the example product panics when read at row 2 or column 2 |
| DocExamples.ShapeErrors | src/lib.rs:188-280 | a 2x3 times a 2x2 is a dimension mismatch; adding a differently shaped matrix to a product is a mismatch; adding to a non-product or multiplying a product has no impl |
| DocExamples.GramExample | src/lib.rs:230-240 | `a.t() * &a` is accepted through the `Transpose<L> * R` impl, is 3x3, and its element (0, 0) is 1*1 + 3*3 |

## Left out

- `fmt::Debug` for `Mat` (src/lib.rs:138-160): string rendering only, with no algebraic content.
- The `mat!` procedural macro (macros/src/lib.rs): token parsing and span diagnostics. Only its guarantee `|buffer| == nrows * ncols` is kept, as the `Ref` case of `WellFormed`. The macro's own check flags only rows longer than the first row. A shorter row is rejected later, by rustc's array-length check, without the macro's diagnostic.
- `Mat::new` (src/lib.rs:127-135) is the `Mat` datatype constructor. Its `unsafe` marker has no behavioural content once the length guarantee is part of `WellFormed`.
- The typenum, `Unsize` and `PhantomData` encoding of dimensions and the `'a` lifetimes: dimensions are `nat` fields, and borrowing versus copying an operand has no behavioural content for an immutable tree.
- Floating-point elements and the `f32`/`f64` `Zero` impls (src/traits.rs:78-88). Elements are unbounded integers.
- Integer overflow of element arithmetic, in the sum's `+` and the product's `*` and `+` (`Tree.UnsafeGet`, `Tree.Accumulate`), is not modelled: elements are unbounded integers, whereas the source panics or wraps around depending on the build. The element types' ranges are therefore not modelled either.
- User implementations of `Matrix` and `UnsafeGet`: both traits are public, so a downstream type can implement them, get `t()` from the blanket `Transpose` impl, and appear as the right operand of `&Mat * R`, `Transpose<L> * R` or `Product + RHS`. The model covers only the crate's four node kinds, so such an operand cannot be represented, and nothing is stated about whether its `unsafe_get` honours its declared dimensions.
- Matrix.Get: indices are unbounded naturals rather than `usize`. `usize` overflow of the offset `r * NCOLS + c` cannot occur for in-bounds indices, whose offset is below the buffer length.
- The cost model (each access recomputes its operands, with no memoization) is reflected only in the structure of `UnsafeGet`. No cost is stated or proved.
