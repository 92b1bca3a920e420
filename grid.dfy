/**
 * The value side of the integer matrix: a grid of `int` entries stored as a
 * sequence of rows, together with the entry-by-entry definitions of the four
 * operations that build a new matrix (product, entry-wise product, scaling)
 * and the algebraic facts that hold of them.
 *
 * Dimensions are passed explicitly, as the `rows` and `cols` fields of the
 * class are: a matrix with no rows still has a column count, and the product
 * of an n x 0 and a 0 x p matrix is an n x p matrix.
 */
module Grids {

  /** `g` has exactly `r` rows and each of them holds exactly `c` entries. */
  predicate IsShape(g: seq<seq<int>>, r: int, c: int) {
    |g| == r && forall i :: 0 <= i < |g| ==> |g[i]| == c
  }

  /** The `r` x `c` grid of zeros, the initial content of every new matrix. */
  function Zero(r: nat, c: nat): (g: seq<seq<int>>)
    ensures IsShape(g, r, c)
  {
    seq(r, _ => seq(c, _ => 0))
  }

  /** The `n` x `n` identity matrix: ones on the diagonal, zeros elsewhere. */
  function Identity(n: nat): (g: seq<seq<int>>)
    ensures IsShape(g, n, n)
  {
    seq(n, i => seq(n, j => if i == j then 1 else 0))
  }

  /**
   * The sum over t < k of a[i][t] * b[t][j], accumulated in increasing t:
   * the (i, j) entry of the product a * b after its first k terms.
   */
  function DotPrefix(a: seq<seq<int>>, b: seq<seq<int>>, i: int, j: int, k: nat): int
    requires 0 <= i < |a| && k <= |a[i]| && k <= |b| && 0 <= j
    requires forall t :: 0 <= t < k ==> j < |b[t]|
    decreases k
  {
    if k == 0 then 0 else DotPrefix(a, b, i, j, k - 1) + a[i][k - 1] * b[k - 1][j]
  }

  /** The matrix product of an `n` x `m` grid and an `m` x `p` grid. */
  function Product(a: seq<seq<int>>, b: seq<seq<int>>, n: nat, m: nat, p: nat): (g: seq<seq<int>>)
    requires IsShape(a, n, m) && IsShape(b, m, p)
    ensures IsShape(g, n, p)
  {
    seq(n, i requires 0 <= i < n => seq(p, j requires 0 <= j < p => DotPrefix(a, b, i, j, m)))
  }

  /** The entry-by-entry product of two `n` x `m` grids. */
  function Hadamard(a: seq<seq<int>>, b: seq<seq<int>>, n: nat, m: nat): (g: seq<seq<int>>)
    requires IsShape(a, n, m) && IsShape(b, n, m)
    ensures IsShape(g, n, m)
  {
    seq(n, i requires 0 <= i < n => seq(m, j requires 0 <= j < m => a[i][j] * b[i][j]))
  }

  /** Every entry of an `n` x `m` grid multiplied by `s`. */
  function Scale(a: seq<seq<int>>, s: int, n: nat, m: nat): (g: seq<seq<int>>)
    requires IsShape(a, n, m)
    ensures IsShape(g, n, m)
  {
    seq(n, i requires 0 <= i < n => seq(m, j requires 0 <= j < m => a[i][j] * s))
  }

  /** Two grids of the same shape are equal when they agree at every entry. */
  lemma {:induction false} EqualByEntries(g: seq<seq<int>>, h: seq<seq<int>>, n: nat, m: nat)
    requires IsShape(g, n, m) && IsShape(h, n, m)
    requires forall i, j :: 0 <= i < n && 0 <= j < m ==> g[i][j] == h[i][j]
    ensures g == h
  {
    forall i | 0 <= i < n
      ensures g[i] == h[i]
    {
      assert |g[i]| == m && |h[i]| == m;
      assert forall j :: 0 <= j < m ==> g[i][j] == h[i][j];
    }
  }

  // ---------------------------------------------------------------------
  // Entry-wise product

  /** The entry-wise product does not depend on the order of its operands. */
  lemma HadamardCommutes(a: seq<seq<int>>, b: seq<seq<int>>, n: nat, m: nat)
    requires IsShape(a, n, m) && IsShape(b, n, m)
    ensures Hadamard(a, b, n, m) == Hadamard(b, a, n, m)
  {
    EqualByEntries(Hadamard(a, b, n, m), Hadamard(b, a, n, m), n, m);
  }

  /** Multiplying entry-wise by the zero grid gives the zero grid. */
  lemma HadamardZero(a: seq<seq<int>>, n: nat, m: nat)
    requires IsShape(a, n, m)
    ensures Hadamard(a, Zero(n, m), n, m) == Zero(n, m)
  {
    EqualByEntries(Hadamard(a, Zero(n, m), n, m), Zero(n, m), n, m);
  }

  // ---------------------------------------------------------------------
  // Scaling

  /** Scaling by 1 gives back the same entries. */
  lemma ScaleByOne(a: seq<seq<int>>, n: nat, m: nat)
    requires IsShape(a, n, m)
    ensures Scale(a, 1, n, m) == a
  {
    EqualByEntries(Scale(a, 1, n, m), a, n, m);
  }

  /** Scaling by 0 gives the zero grid of the same shape. */
  lemma ScaleByZero(a: seq<seq<int>>, n: nat, m: nat)
    requires IsShape(a, n, m)
    ensures Scale(a, 0, n, m) == Zero(n, m)
  {
    EqualByEntries(Scale(a, 0, n, m), Zero(n, m), n, m);
  }

  /** Scaling twice is scaling once by the product of the two factors. */
  lemma ScaleTwice(a: seq<seq<int>>, s: int, t: int, n: nat, m: nat)
    requires IsShape(a, n, m)
    ensures Scale(Scale(a, s, n, m), t, n, m) == Scale(a, s * t, n, m)
  {
    forall i, j | 0 <= i < n && 0 <= j < m
      ensures Scale(Scale(a, s, n, m), t, n, m)[i][j] == Scale(a, s * t, n, m)[i][j]
    {
      assert (a[i][j] * s) * t == a[i][j] * (s * t);
    }
    EqualByEntries(Scale(Scale(a, s, n, m), t, n, m), Scale(a, s * t, n, m), n, m);
  }

  // ---------------------------------------------------------------------
  // Matrix product

  /** With no inner terms the product is zero-filled. */
  lemma ProductEmptyInner(a: seq<seq<int>>, b: seq<seq<int>>, n: nat, p: nat)
    requires IsShape(a, n, 0) && IsShape(b, 0, p)
    ensures Product(a, b, n, 0, p) == Zero(n, p)
  {
    EqualByEntries(Product(a, b, n, 0, p), Zero(n, p), n, p);
  }

  /** Against the identity on the right, only the term t == j survives. */
  lemma {:induction false} DotPrefixIdentityRight(a: seq<seq<int>>, n: nat, m: nat, i: nat, j: nat, k: nat)
    requires IsShape(a, n, m) && i < n && j < m && k <= m
    ensures DotPrefix(a, Identity(m), i, j, k) == if j < k then a[i][j] else 0
  {
    if k > 0 {
      DotPrefixIdentityRight(a, n, m, i, j, k - 1);
    }
  }

  /** Multiplying by the identity on the right gives back the same grid. */
  lemma {:induction false} ProductIdentityRight(a: seq<seq<int>>, n: nat, m: nat)
    requires IsShape(a, n, m)
    ensures Product(a, Identity(m), n, m, m) == a
  {
    forall i, j | 0 <= i < n && 0 <= j < m
      ensures Product(a, Identity(m), n, m, m)[i][j] == a[i][j]
    {
      DotPrefixIdentityRight(a, n, m, i, j, m);
    }
    EqualByEntries(Product(a, Identity(m), n, m, m), a, n, m);
  }

  /** Against the identity on the left, only the term t == i survives. */
  lemma {:induction false} DotPrefixIdentityLeft(b: seq<seq<int>>, n: nat, p: nat, i: nat, j: nat, k: nat)
    requires IsShape(b, n, p) && i < n && j < p && k <= n
    ensures DotPrefix(Identity(n), b, i, j, k) == if i < k then b[i][j] else 0
  {
    if k > 0 {
      DotPrefixIdentityLeft(b, n, p, i, j, k - 1);
    }
  }

  /** Multiplying by the identity on the left gives back the same grid. */
  lemma {:induction false} ProductIdentityLeft(b: seq<seq<int>>, n: nat, p: nat)
    requires IsShape(b, n, p)
    ensures Product(Identity(n), b, n, n, p) == b
  {
    forall i, j | 0 <= i < n && 0 <= j < p
      ensures Product(Identity(n), b, n, n, p)[i][j] == b[i][j]
    {
      DotPrefixIdentityLeft(b, n, p, i, j, n);
    }
    EqualByEntries(Product(Identity(n), b, n, n, p), b, n, p);
  }

  /** A factor on the left operand comes out of every partial sum. */
  lemma {:induction false} DotPrefixScaleLeft(a: seq<seq<int>>, b: seq<seq<int>>, s: int,
                                              n: nat, m: nat, p: nat, i: nat, j: nat, k: nat)
    requires IsShape(a, n, m) && IsShape(b, m, p) && i < n && j < p && k <= m
    ensures DotPrefix(Scale(a, s, n, m), b, i, j, k) == DotPrefix(a, b, i, j, k) * s
  {
    if k > 0 {
      DotPrefixScaleLeft(a, b, s, n, m, p, i, j, k - 1);
      var x, y := a[i][k - 1], b[k - 1][j];
      calc {
        DotPrefix(Scale(a, s, n, m), b, i, j, k);
        DotPrefix(a, b, i, j, k - 1) * s + (x * s) * y;
        { assert (x * s) * y == (x * y) * s; }
        DotPrefix(a, b, i, j, k - 1) * s + (x * y) * s;
        (DotPrefix(a, b, i, j, k - 1) + x * y) * s;
      }
    }
  }

  /** Scaling the left operand scales the product: (s a) b == s (a b). */
  lemma {:induction false} ProductScaleLeft(a: seq<seq<int>>, b: seq<seq<int>>, s: int, n: nat, m: nat, p: nat)
    requires IsShape(a, n, m) && IsShape(b, m, p)
    ensures Product(Scale(a, s, n, m), b, n, m, p) == Scale(Product(a, b, n, m, p), s, n, p)
  {
    forall i, j | 0 <= i < n && 0 <= j < p
      ensures Product(Scale(a, s, n, m), b, n, m, p)[i][j] == Scale(Product(a, b, n, m, p), s, n, p)[i][j]
    {
      DotPrefixScaleLeft(a, b, s, n, m, p, i, j, m);
    }
    EqualByEntries(Product(Scale(a, s, n, m), b, n, m, p), Scale(Product(a, b, n, m, p), s, n, p), n, p);
  }

  /** Every partial sum against the zero grid is 0. */
  lemma {:induction false} DotPrefixZeroRight(a: seq<seq<int>>, n: nat, m: nat, p: nat, i: nat, j: nat, k: nat)
    requires IsShape(a, n, m) && i < n && j < p && k <= m
    ensures DotPrefix(a, Zero(m, p), i, j, k) == 0
  {
    if k > 0 {
      DotPrefixZeroRight(a, n, m, p, i, j, k - 1);
    }
  }

  /** Multiplying by the zero grid gives the zero grid. */
  lemma {:induction false} ProductZeroRight(a: seq<seq<int>>, n: nat, m: nat, p: nat)
    requires IsShape(a, n, m)
    ensures Product(a, Zero(m, p), n, m, p) == Zero(n, p)
  {
    forall i, j | 0 <= i < n && 0 <= j < p
      ensures Product(a, Zero(m, p), n, m, p)[i][j] == 0
    {
      DotPrefixZeroRight(a, n, m, p, i, j, m);
    }
    EqualByEntries(Product(a, Zero(m, p), n, m, p), Zero(n, p), n, p);
  }
}
