# Integer matrix class, modelled in Dafny

This project models the `Matrix` class of `matrix.cpp`. The class is a `rows` × `cols` grid of
`int` kept in a vector of vectors. It offers:

- a zero-filled constructor and a copy-from-array constructor;
- bounds-checked `setElement` and `getElement`;
- four static operations that each allocate a zero-filled result and fill it with nested loops:
  - `multiply`: the matrix product;
  - `dotProduct`: despite its name, the entry-by-entry product;
  - `scalarMultiply`;
  - `elementWiseMultiply`.

Two modules:

- `Grids` (`grid.dfy`) holds the value side. `IsShape` is the shape invariant. It also defines:
  - `Zero` and `Identity`;
  - the reference definitions `DotPrefix`, the partial sum for one entry of a product, and
    `Product`, `Hadamard` (entry-wise product) and `Scale`;
  - the algebraic lemmas about them: identity, zero, commutativity and scalar laws.
- `Matrices` (`matrix.dfy`) holds `class Matrix` with the fields `rows`, `cols` and `data`
  (`seq<seq<int>>`, reassigned entry by entry just as the source writes `data[i][j]`). Its members:
  - `Valid()`, the shape invariant;
  - the two constructors;
  - `SetElement` (`modifies this`data`) and `GetElement`;
  - the four static operations, whose loops are proved against the `Grids` definitions.

The source's `invalid_argument` throw is the result `Err(InvalidArgument(message))`, carrying the
message the source throws with. The static operations have no `modifies` clause. So Dafny's
frame rule guarantees that they leave their argument matrices unchanged, as `const&` does in the
source. In `matrix.cpp`, `dotProduct` and `elementWiseMultiply` each carry their own copy of the
same nested loop. The model's `DotProduct` and `ElementWiseMultiply` therefore share that loop as
one method, `EntryWise`. Each succeeds
exactly when its inputs have the same shape, and then equals `Hadamard` of its inputs. So on every
pair of same-shaped inputs they build equal matrices; on a mismatch both fail, each with its own
message. `EntryWiseOperationsAgree` states this agreement, and with `HadamardCommutes` also that
swapping the operands changes nothing.

## Model

| member | source | states |
|---|---|---|
| `Matrices.Matrix.constructor` | matrix.cpp:12 | the new matrix is valid, has exactly `r` rows and `c` columns, and every entry is 0 |
| `Matrices.Matrix.FromArray` | matrix.cpp:15-21 | the new matrix is valid and `r` × `c`, and entry (i, j) equals `arr[i][j]` for every in-range i, j; only the first `r` rows and `c` columns of `arr` need exist |
| `Matrices.Matrix.SetElement` | matrix.cpp:24-30 | in range: only entry (r, c) changes, to `value`, and `GetElement(r, c)` then returns `value`; out of range: nothing changes; dimensions never change and validity is kept |
| `Matrices.Matrix.GetElement` | matrix.cpp:33-40 | in range: the stored entry; out of range: the sentinel -1; reads only, changes nothing |
| `Matrices.Matrix.Multiply` | matrix.cpp:53-67 | succeeds exactly when `m1.cols == m2.rows` and otherwise fails with the multiplication message; on success a fresh valid `m1.rows` × `m2.cols` matrix whose entry (i, j) is the sum over k < `m1.cols` of `m1[i][k] * m2[k][j]` |
| `Matrices.Matrix.DotProduct` | matrix.cpp:70-82 | succeeds exactly when rows and columns both match and otherwise fails with the dot-product message; on success a fresh valid matrix of the same shape equal to the entry-wise product |
| `Matrices.Matrix.ScalarMultiply` | matrix.cpp:85-93 | never fails; a fresh valid matrix of the same shape whose entry (i, j) is `m[i][j] * scalar` |
| `Matrices.Matrix.ElementWiseMultiply` | matrix.cpp:96-108 | succeeds exactly when rows and columns both match and otherwise fails with the element-wise message; on success a fresh valid matrix of the same shape equal to the entry-wise product |
| `Matrices.EntryWiseOperationsAgree` | matrix.cpp:70-108 | `DotProduct` and `ElementWiseMultiply` succeed on the same inputs, exactly the same-shaped ones, and then build valid matrices with equal `rows`, `cols` and entries; `ElementWiseMultiply` with the operands swapped builds the same result |
| `Matrices.Matrix.EntryWise` | matrix.cpp:101-107 | the nested loop of both entry-wise operations yields a fresh valid matrix of the input shape equal to `Hadamard` of the inputs |
| `Matrices.Matrix.Valid` | matrix.cpp:6-8 | the shape invariant: `rows` and `cols` are non-negative and `data` has `rows` rows, each of length `cols`; every constructor establishes it and every operation keeps it |
| `Grids.IsShape` | matrix.cpp:8 | a grid has exactly `r` rows and each row holds exactly `c` entries |
| `Grids.DotPrefix` | matrix.cpp:61-63 | the running sum of the `k` loop after k terms: `a[i][0] * b[0][j] + … + a[i][k-1] * b[k-1][j]`, added in increasing k |
| `Grids.Zero` | matrix.cpp:12 | the zero fill has the requested shape |
| `Grids.Product` | matrix.cpp:58-65 | the product of an n × m and an m × p grid is n × p |
| `Grids.Hadamard` | matrix.cpp:75-80 | the entry-wise product keeps the common shape |
| `Grids.Scale` | matrix.cpp:86-91 | scaling keeps the shape |
| `Grids.HadamardCommutes` | matrix.cpp:96-108 | the entry-wise product of a and b equals that of b and a |
| `Grids.HadamardZero` | matrix.cpp:104 | the entry-wise product with the zero grid is the zero grid |
| `Grids.ScaleByOne` | matrix.cpp:85-93 | scaling by 1 gives back the same grid |
| `Grids.ScaleByZero` | matrix.cpp:85-93 | scaling by 0 gives the zero grid of the same shape |
| `Grids.ScaleTwice` | matrix.cpp:89 | scaling by s and then by t equals scaling by s * t |
| `Grids.ProductEmptyInner` | matrix.cpp:58-65 | an n × 0 by 0 × p product is the zero-filled n × p grid, because the inner loop never runs |
| `Grids.DotPrefixIdentityRight` | matrix.cpp:61-63 | the partial sum against the identity on the right over k terms is `a[i][j]` if j < k and 0 otherwise |
| `Grids.ProductIdentityRight` | matrix.cpp:53-67 | a · I = a |
| `Grids.DotPrefixIdentityLeft` | matrix.cpp:61-63 | the partial sum against the identity on the left over k terms is `b[i][j]` if i < k and 0 otherwise |
| `Grids.ProductIdentityLeft` | matrix.cpp:53-67 | I · b = b |
| `Grids.DotPrefixScaleLeft` | matrix.cpp:61-63 | scaling the left operand by s scales every partial sum by s |
| `Grids.ProductScaleLeft` | matrix.cpp:53-67 | (s·a) · b = s·(a · b), linking `multiply` and `scalarMultiply` |
| `Grids.DotPrefixZeroRight` | matrix.cpp:61-63 | every partial sum against the zero grid is 0 |
| `Grids.ProductZeroRight` | matrix.cpp:53-67 | a · 0 = 0 |

## Left out

- `main.cpp` (the backpropagation network) is not part of this model. It is 32-bit floating-point arithmetic built on `exp`, `rand` and a console training loop.
- `Matrix::display` and the `main` demo driver in `matrix.cpp`: console output only.
- The `std::cerr` message printed on an out-of-range `setElement` or `getElement`. Only its effect is modelled: nothing changes, or -1 is returned.
- Matrices.Matrix.Multiply, Matrices.Matrix.DotProduct, Matrices.Matrix.ScalarMultiply and Matrices.Matrix.ElementWiseMultiply: entries are unbounded integers. C++ `int` overflow in the products and sums is undefined behaviour, so it is not modelled.
- The C++ exception is a `Result` value, not an exception. The caller sees the same failure and the same message.
- Matrices.Matrix.FromArray: the `const int**` argument is a `seq<seq<int>>`. The requirement that it holds at least `r` rows of at least `c` entries stands for the pointer validity the C++ caller must guarantee.
- Matrices.Matrix.constructor and Matrices.Matrix.FromArray require `r` and `c` to be non-negative. A negative size makes the C++ vector constructor fail, which is not modelled.
- Copy semantics of the returned `Matrix` value: a result is a freshly allocated object, which is how Dafny models the separate value that C++ returns.
