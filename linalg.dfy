/**
 * Dense real vectors and row-major matrices, and the handful of Eigen
 * expression forms the filter uses (products, transposes, sums, differences).
 */
module Linalg {

  type Vector = seq<real>
  type Matrix = seq<seq<real>>

  predicate IsMatrix(m: Matrix, rows: nat, cols: nat) {
    |m| == rows && forall r :: 0 <= r < rows ==> |m[r]| == cols
  }

  predicate Symmetric(m: Matrix, n: nat)
    requires IsMatrix(m, n, n)
  {
    forall r, c :: 0 <= r < n && 0 <= c < n ==> m[r][c] == m[c][r]
  }

  /** Column j of m. */
  function Column(m: Matrix, j: nat): (v: Vector)
    requires forall r :: 0 <= r < |m| ==> j < |m[r]|
    ensures |v| == |m|
  {
    seq(|m|, r requires 0 <= r < |m| => m[r][j])
  }

  /** The sum of a[j] * b[j] for j < k, accumulated left to right. */
  function Dot(a: Vector, b: Vector, k: nat): real
    requires k <= |a| && k <= |b|
  {
    if k == 0 then 0.0 else Dot(a, b, k - 1) + a[k - 1] * b[k - 1]
  }

  /** The matrix product of an n-by-m and an m-by-p matrix. */
  function Mul(a: Matrix, b: Matrix, n: nat, m: nat, p: nat): (r: Matrix)
    requires IsMatrix(a, n, m) && IsMatrix(b, m, p)
    ensures IsMatrix(r, n, p)
  {
    seq(n, i requires 0 <= i < n => seq(p, j requires 0 <= j < p => Dot(a[i], Column(b, j), m)))
  }

  /** The product of an n-by-m matrix and a vector of length m. */
  function Apply(a: Matrix, v: Vector, n: nat, m: nat): (r: Vector)
    requires IsMatrix(a, n, m) && |v| == m
    ensures |r| == n
  {
    seq(n, i requires 0 <= i < n => Dot(a[i], v, m))
  }

  function Transpose(a: Matrix, n: nat, m: nat): (r: Matrix)
    requires IsMatrix(a, n, m)
    ensures IsMatrix(r, m, n)
  {
    seq(m, j requires 0 <= j < m => seq(n, i requires 0 <= i < n => a[i][j]))
  }

  function Add(a: Matrix, b: Matrix, n: nat, m: nat): (r: Matrix)
    requires IsMatrix(a, n, m) && IsMatrix(b, n, m)
    ensures IsMatrix(r, n, m)
  {
    seq(n, i requires 0 <= i < n => seq(m, j requires 0 <= j < m => a[i][j] + b[i][j]))
  }

  function Sub(a: Matrix, b: Matrix, n: nat, m: nat): (r: Matrix)
    requires IsMatrix(a, n, m) && IsMatrix(b, n, m)
    ensures IsMatrix(r, n, m)
  {
    seq(n, i requires 0 <= i < n => seq(m, j requires 0 <= j < m => a[i][j] - b[i][j]))
  }

  function AddV(a: Vector, b: Vector): (r: Vector)
    requires |a| == |b|
    ensures |r| == |a|
  {
    seq(|a|, i requires 0 <= i < |a| => a[i] + b[i])
  }

  function SubV(a: Vector, b: Vector): (r: Vector)
    requires |a| == |b|
    ensures |r| == |a|
  {
    seq(|a|, i requires 0 <= i < |a| => a[i] - b[i])
  }

  function Identity(n: nat): (r: Matrix)
    ensures IsMatrix(r, n, n)
  {
    seq(n, i requires 0 <= i < n => seq(n, j requires 0 <= j < n => if i == j then 1.0 else 0.0))
  }

  /** Two matrices of the same shape with the same entries are equal. */
  lemma MatrixExt(a: Matrix, b: Matrix, n: nat, m: nat)
    requires IsMatrix(a, n, m) && IsMatrix(b, n, m)
    requires forall r, c :: 0 <= r < n && 0 <= c < m ==> a[r][c] == b[r][c]
    ensures a == b
  {
    forall r | 0 <= r < n
      ensures a[r] == b[r]
    {
      assert forall c :: 0 <= c < m ==> a[r][c] == b[r][c];
    }
  }

  /** A dot product in which every term has a zero factor is zero. */
  lemma {:induction false} DotZero(a: Vector, b: Vector, k: nat)
    requires k <= |a| && k <= |b|
    requires forall j :: 0 <= j < k ==> a[j] == 0.0 || b[j] == 0.0
    ensures Dot(a, b, k) == 0.0
  {
    if k > 0 {
      DotZero(a, b, k - 1);
    }
  }

  /** A dot product with the j-th unit vector, on either side, selects entry j. */
  lemma {:induction false} DotUnit(e: Vector, b: Vector, k: nat, j: nat)
    requires k <= |e| && k <= |b| && j < k
    requires forall t :: 0 <= t < k ==> e[t] == if t == j then 1.0 else 0.0
    ensures Dot(e, b, k) == b[j] && Dot(b, e, k) == b[j]
  {
    if j == k - 1 {
      DotZero(e, b, k - 1);
      DotZero(b, e, k - 1);
    } else {
      DotUnit(e, b, k - 1, j);
    }
  }

  /** A dot product of length two or three, written out. */
  lemma DotTwo(a: Vector, b: Vector)
    requires 2 <= |a| && 2 <= |b|
    ensures Dot(a, b, 2) == a[0] * b[0] + a[1] * b[1]
  {
    assert Dot(a, b, 1) == a[0] * b[0];
  }

  lemma DotThree(a: Vector, b: Vector)
    requires 3 <= |a| && 3 <= |b|
    ensures Dot(a, b, 3) == a[0] * b[0] + a[1] * b[1] + a[2] * b[2]
  {
    DotTwo(a, b);
  }

  /** The dot product is linear in its first argument: a difference of rows gives a difference of dot products. */
  lemma {:induction false} DotSub(a: Vector, b: Vector, c: Vector, v: Vector, k: nat)
    requires k <= |a| && k <= |b| && k <= |c| && k <= |v|
    requires forall t :: 0 <= t < k ==> a[t] == b[t] - c[t]
    ensures Dot(a, v, k) == Dot(b, v, k) - Dot(c, v, k)
  {
    if k > 0 {
      DotSub(a, b, c, v, k - 1);
    }
  }

  /** Adding a vector of zeros changes nothing. */
  lemma AddZero(a: Vector, d: Vector)
    requires |a| == |d| && forall j :: 0 <= j < |d| ==> d[j] == 0.0
    ensures AddV(a, d) == a
  {
  }

  /** A matrix applied to the zero vector gives the zero vector. */
  lemma ApplyZero(a: Matrix, v: Vector, n: nat, m: nat)
    requires IsMatrix(a, n, m) && |v| == m
    requires forall j :: 0 <= j < m ==> v[j] == 0.0
    ensures forall i :: 0 <= i < n ==> Apply(a, v, n, m)[i] == 0.0
  {
    forall i | 0 <= i < n
      ensures Apply(a, v, n, m)[i] == 0.0
    {
      DotZero(a[i], v, m);
    }
  }
}

/**
 * The numeric library the filter calls into and whose code is not part of this
 * model: the C math functions, Eigen's Cholesky factor (`llt().matrixL()`) and
 * matrix inverse, and the one division the filter does not guard.
 */
module Numerics {
  import opened Linalg

  datatype Library = Library(
    sin: real -> real,
    cos: real -> real,
    atan2: (real, real) -> real,
    sqrt: real -> real,
    divide: (real, real) -> real,
    choleskyL: Matrix -> Matrix,
    inverse: Matrix -> Matrix)
  {
    /**
     * The only facts the model relies on: the factor and the inverse of an
     * n-row matrix are n-by-n, and the unguarded division is real division
     * whenever the divisor is not zero.
     */
    ghost predicate Valid() {
      && (forall m: Matrix {:trigger choleskyL(m)} :: IsMatrix(choleskyL(m), |m|, |m|))
      && (forall m: Matrix {:trigger inverse(m)} :: IsMatrix(inverse(m), |m|, |m|))
      && (forall a: real, b: real :: b != 0.0 ==> divide(a, b) == a / b)
    }
  }
}
