/**
 * The integer `Matrix` class: a `rows` x `cols` grid of `int` held as a
 * sequence of rows (a vector of vectors), with bounds-checked element access
 * and four static operations that each allocate a zero-filled result and fill
 * it with nested loops.  A dimension mismatch is reported as
 * `Err(InvalidArgument(...))` carrying the message the operation throws with.
 */
module Matrices {
  import opened Grids

  /** The failure a static operation reports instead of a result. */
  datatype Error = InvalidArgument(message: string)

  datatype Result<T> = Ok(value: T) | Err(error: Error)

  const MultiplyMismatch := "Matrix dimensions do not match for multiplication"
  const DotProductMismatch := "Matrix dimensions do not match for dot product"
  const ElementWiseMismatch := "Matrix dimensions do not match for element-wise multiplication"

  class Matrix {
    var rows: int
    var cols: int
    var data: seq<seq<int>>

    /** The shape invariant: `data` has `rows` rows, each of length `cols`. */
    ghost predicate Valid()
      reads this
    {
      0 <= rows && 0 <= cols && IsShape(data, rows, cols)
    }

    /** An `r` x `c` matrix of zeros. */
    constructor (r: int, c: int)
      requires 0 <= r && 0 <= c
      ensures Valid() && rows == r && cols == c
      ensures data == Zero(r, c)
      ensures forall i, j :: 0 <= i < r && 0 <= j < c ==> data[i][j] == 0
    {
      rows, cols, data := r, c, Zero(r, c);
    }

    /** An `r` x `c` matrix whose entry (i, j) is copied from `arr[i][j]`. */
    constructor FromArray(r: int, c: int, arr: seq<seq<int>>)
      requires 0 <= r && 0 <= c
      requires r <= |arr| && forall i :: 0 <= i < r ==> c <= |arr[i]|
      ensures Valid() && rows == r && cols == c
      ensures forall i, j :: 0 <= i < r && 0 <= j < c ==> data[i][j] == arr[i][j]
    {
      rows, cols, data := r, c, Zero(r, c);
      new;
      for i := 0 to r
        invariant rows == r && cols == c && IsShape(data, r, c)
        invariant forall i', j :: 0 <= i' < i && 0 <= j < c ==> data[i'][j] == arr[i'][j]
      {
        for j := 0 to c
          invariant rows == r && cols == c && IsShape(data, r, c)
          invariant forall i', j' :: 0 <= i' < i && 0 <= j' < c ==> data[i'][j'] == arr[i'][j']
          invariant forall j' :: 0 <= j' < j ==> data[i][j'] == arr[i][j']
        {
          data := data[i := data[i][j := arr[i][j]]];
        }
      }
    }

    /** Stores `value` at (r, c) when the index is in range; otherwise changes nothing. */
    method SetElement(r: int, c: int, value: int)
      requires Valid()
      modifies this`data
      ensures Valid()
      ensures 0 <= r < rows && 0 <= c < cols ==>
                data == old(data)[r := old(data)[r][c := value]] && GetElement(r, c) == value
      ensures !(0 <= r < rows && 0 <= c < cols) ==> data == old(data)
      ensures forall i, j :: 0 <= i < rows && 0 <= j < cols && (i != r || j != c) ==>
                GetElement(i, j) == old(GetElement(i, j))
    {
      if 0 <= r < rows && 0 <= c < cols {
        data := data[r := data[r][c := value]];
      }
    }

    /** The entry at (r, c) when the index is in range, and the sentinel -1 otherwise. */
    function GetElement(r: int, c: int): (v: int)
      reads this
      requires Valid()
      ensures 0 <= r < rows && 0 <= c < cols ==> v == data[r][c]
      ensures !(0 <= r < rows && 0 <= c < cols) ==> v == -1
    {
      if 0 <= r < rows && 0 <= c < cols then data[r][c] else -1
    }

    /**
     * The matrix product of `m1` and `m2`, accumulated term by term into a
     * zero-filled `m1.rows` x `m2.cols` result.
     */
    static method Multiply(m1: Matrix, m2: Matrix) returns (result: Result<Matrix>)
      requires m1.Valid() && m2.Valid()
      ensures result.Ok? <==> m1.cols == m2.rows
      ensures m1.cols != m2.rows <==> result == Err(InvalidArgument(MultiplyMismatch))
      ensures result.Ok? ==>
                fresh(result.value) && result.value.Valid() &&
                result.value.rows == m1.rows && result.value.cols == m2.cols &&
                result.value.data == Product(m1.data, m2.data, m1.rows, m1.cols, m2.cols)
      ensures result.Ok? ==>
                forall i, j :: 0 <= i < m1.rows && 0 <= j < m2.cols ==>
                  result.value.data[i][j] == DotPrefix(m1.data, m2.data, i, j, m1.cols)
    {
      if m1.cols != m2.rows {
        return Err(InvalidArgument(MultiplyMismatch));
      }
      var n, m, p := m1.rows, m1.cols, m2.cols;
      var a, b := m1.data, m2.data;
      var res := new Matrix(n, p);
      for i := 0 to n
        invariant res.rows == n && res.cols == p && IsShape(res.data, n, p)
        invariant forall i' :: 0 <= i' < i ==> res.data[i'] == Product(a, b, n, m, p)[i']
        invariant forall i', j :: i <= i' < n && 0 <= j < p ==> res.data[i'][j] == 0
      {
        for j := 0 to p
          invariant res.rows == n && res.cols == p && IsShape(res.data, n, p)
          invariant forall i' :: 0 <= i' < i ==> res.data[i'] == Product(a, b, n, m, p)[i']
          invariant forall i', j' :: i < i' < n && 0 <= j' < p ==> res.data[i'][j'] == 0
          invariant forall j' :: 0 <= j' < j ==> res.data[i][j'] == DotPrefix(a, b, i, j', m)
          invariant forall j' :: j <= j' < p ==> res.data[i][j'] == 0
        {
          for k := 0 to m
            invariant res.rows == n && res.cols == p && IsShape(res.data, n, p)
            invariant forall i' :: 0 <= i' < i ==> res.data[i'] == Product(a, b, n, m, p)[i']
            invariant forall i', j' :: i < i' < n && 0 <= j' < p ==> res.data[i'][j'] == 0
            invariant forall j' :: 0 <= j' < j ==> res.data[i][j'] == DotPrefix(a, b, i, j', m)
            invariant forall j' :: j < j' < p ==> res.data[i][j'] == 0
            invariant res.data[i][j] == DotPrefix(a, b, i, j, k)
          {
            res.data := res.data[i := res.data[i][j := res.data[i][j] + a[i][k] * b[k][j]]];
          }
        }
        assert res.data[i] == Product(a, b, n, m, p)[i];
      }
      EqualByEntries(res.data, Product(a, b, n, m, p), n, p);
      return Ok(res);
    }

    /**
     * Despite its name, the entry-by-entry product of two matrices of the
     * same dimensions (not a scalar).
     */
    static method DotProduct(m1: Matrix, m2: Matrix) returns (result: Result<Matrix>)
      requires m1.Valid() && m2.Valid()
      ensures result.Ok? <==> (m1.rows == m2.rows && m1.cols == m2.cols)
      ensures (m1.rows != m2.rows || m1.cols != m2.cols) <==>
                result == Err(InvalidArgument(DotProductMismatch))
      ensures result.Ok? ==>
                fresh(result.value) && result.value.Valid() &&
                result.value.rows == m1.rows && result.value.cols == m1.cols &&
                result.value.data == Hadamard(m1.data, m2.data, m1.rows, m1.cols)
    {
      if m1.rows != m2.rows || m1.cols != m2.cols {
        return Err(InvalidArgument(DotProductMismatch));
      }
      var res := EntryWise(m1, m2);
      return Ok(res);
    }

    /** `m` with every entry multiplied by `scalar`; never fails. */
    static method ScalarMultiply(m: Matrix, scalar: int) returns (result: Matrix)
      requires m.Valid()
      ensures fresh(result) && result.Valid()
      ensures result.rows == m.rows && result.cols == m.cols
      ensures result.data == Scale(m.data, scalar, m.rows, m.cols)
    {
      var n, c := m.rows, m.cols;
      result := new Matrix(n, c);
      for i := 0 to n
        invariant result.rows == n && result.cols == c && IsShape(result.data, n, c)
        invariant forall i', j :: 0 <= i' < i && 0 <= j < c ==> result.data[i'][j] == m.data[i'][j] * scalar
      {
        for j := 0 to c
          invariant result.rows == n && result.cols == c && IsShape(result.data, n, c)
          invariant forall i', j' :: 0 <= i' < i && 0 <= j' < c ==> result.data[i'][j'] == m.data[i'][j'] * scalar
          invariant forall j' :: 0 <= j' < j ==> result.data[i][j'] == m.data[i][j'] * scalar
        {
          result.data := result.data[i := result.data[i][j := m.data[i][j] * scalar]];
        }
      }
      EqualByEntries(result.data, Scale(m.data, scalar, n, c), n, c);
    }

    /** The entry-by-entry product of two matrices of the same dimensions. */
    static method ElementWiseMultiply(m1: Matrix, m2: Matrix) returns (result: Result<Matrix>)
      requires m1.Valid() && m2.Valid()
      ensures result.Ok? <==> (m1.rows == m2.rows && m1.cols == m2.cols)
      ensures (m1.rows != m2.rows || m1.cols != m2.cols) <==>
                result == Err(InvalidArgument(ElementWiseMismatch))
      ensures result.Ok? ==>
                fresh(result.value) && result.value.Valid() &&
                result.value.rows == m1.rows && result.value.cols == m1.cols &&
                result.value.data == Hadamard(m1.data, m2.data, m1.rows, m1.cols)
    {
      if m1.rows != m2.rows || m1.cols != m2.cols {
        return Err(InvalidArgument(ElementWiseMismatch));
      }
      var res := EntryWise(m1, m2);
      return Ok(res);
    }

    /** The nested loop shared by DotProduct and ElementWiseMultiply. */
    static method EntryWise(m1: Matrix, m2: Matrix) returns (result: Matrix)
      requires m1.Valid() && m2.Valid() && m1.rows == m2.rows && m1.cols == m2.cols
      ensures fresh(result) && result.Valid()
      ensures result.rows == m1.rows && result.cols == m1.cols
      ensures result.data == Hadamard(m1.data, m2.data, m1.rows, m1.cols)
    {
      var n, c := m1.rows, m1.cols;
      result := new Matrix(n, c);
      for i := 0 to n
        invariant result.rows == n && result.cols == c && IsShape(result.data, n, c)
        invariant forall i', j :: 0 <= i' < i && 0 <= j < c ==>
                    result.data[i'][j] == m1.data[i'][j] * m2.data[i'][j]
      {
        for j := 0 to c
          invariant result.rows == n && result.cols == c && IsShape(result.data, n, c)
          invariant forall i', j' :: 0 <= i' < i && 0 <= j' < c ==>
                      result.data[i'][j'] == m1.data[i'][j'] * m2.data[i'][j']
          invariant forall j' :: 0 <= j' < j ==> result.data[i][j'] == m1.data[i][j'] * m2.data[i][j']
        {
          result.data := result.data[i := result.data[i][j := m1.data[i][j] * m2.data[i][j]]];
        }
      }
      EqualByEntries(result.data, Hadamard(m1.data, m2.data, n, c), n, c);
    }
  }

  /**
   * `DotProduct` and `ElementWiseMultiply` succeed on the same inputs and then
   * build equal matrices, and swapping the operands changes nothing.
   */
  method EntryWiseOperationsAgree(m1: Matrix, m2: Matrix)
    returns (dot: Result<Matrix>, elementWise: Result<Matrix>, swapped: Result<Matrix>)
    requires m1.Valid() && m2.Valid()
    ensures dot.Ok? <==> elementWise.Ok?
    ensures dot.Ok? <==> swapped.Ok?
    ensures dot.Ok? <==> (m1.rows == m2.rows && m1.cols == m2.cols)
    ensures dot.Ok? ==> dot.value.data == elementWise.value.data == swapped.value.data
    ensures dot.Ok? ==>
              dot.value.Valid() && elementWise.value.Valid() && swapped.value.Valid() &&
              dot.value.rows == elementWise.value.rows == swapped.value.rows == m1.rows &&
              dot.value.cols == elementWise.value.cols == swapped.value.cols == m1.cols
    ensures dot.Ok? ==> fresh(dot.value) && fresh(elementWise.value) && fresh(swapped.value)
  {
    dot := Matrix.DotProduct(m1, m2);
    elementWise := Matrix.ElementWiseMultiply(m1, m2);
    swapped := Matrix.ElementWiseMultiply(m2, m1);
    if dot.Ok? {
      HadamardCommutes(m1.data, m2.data, m1.rows, m1.cols);
    }
  }
}
