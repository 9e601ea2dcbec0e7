/** Dense real matrices as the Kalman filter uses them: sequences of rows,
    entries read through `At`, which gives 0 outside the matrix (the fixed-
    size matrix types of the filter always have their declared sizes, so
    this only keeps the functions total). Sizes are passed explicitly, as the
    template parameters give them. */
module Matrices {

  type Vector = seq<real>
  type Matrix = seq<seq<real>>

  /** Entry (i, j), 0 outside the matrix. */
  function At(A: Matrix, i: int, j: int): real
  {
    if 0 <= i < |A| && 0 <= j < |A[i]| then A[i][j] else 0.0
  }

  /** Entry i, 0 outside the vector. */
  function Get(v: Vector, i: int): real
  {
    if 0 <= i < |v| then v[i] else 0.0
  }

  /** `A` has `n` rows of `m` entries each. */
  predicate IsMatrix(A: Matrix, n: nat, m: nat)
  {
    |A| == n && forall i :: 0 <= i < n ==> |A[i]| == m
  }

  predicate Symmetric(A: Matrix, n: nat)
  {
    forall i, j :: 0 <= i < n && 0 <= j < n ==> At(A, i, j) == At(A, j, i)
  }

  /** f(0) + f(1) + ... + f(n-1), accumulated from the left. */
  function Sum(n: nat, f: nat -> real): real
  {
    if n == 0 then 0.0 else Sum(n - 1, f) + f(n - 1)
  }

  function Zero(n: nat, m: nat): (Z: Matrix)
    ensures IsMatrix(Z, n, m)
    ensures forall i, j :: At(Z, i, j) == 0.0
  {
    seq(n, i => seq(m, j => 0.0))
  }

  function Identity(n: nat): (I: Matrix)
    ensures IsMatrix(I, n, n)
    ensures forall i, j :: 0 <= i < n && 0 <= j < n ==> At(I, i, j) == if i == j then 1.0 else 0.0
  {
    seq(n, i => seq(n, j => if i == j then 1.0 else 0.0))
  }

  function Add(A: Matrix, B: Matrix, n: nat, m: nat): (C: Matrix)
    ensures IsMatrix(C, n, m)
  {
    seq(n, i => seq(m, j => At(A, i, j) + At(B, i, j)))
  }

  function Sub(A: Matrix, B: Matrix, n: nat, m: nat): (C: Matrix)
    ensures IsMatrix(C, n, m)
  {
    seq(n, i => seq(m, j => At(A, i, j) - At(B, i, j)))
  }

  /** The terms of entry (i, j) of the product `A B`. */
  function Prod(A: Matrix, B: Matrix, i: int, j: int): nat -> real
  {
    k => At(A, i, k) * At(B, k, j)
  }

  /** The product of the n-by-m matrix `A` and the m-by-p matrix `B`. */
  function Mul(A: Matrix, B: Matrix, n: nat, m: nat, p: nat): (C: Matrix)
    ensures IsMatrix(C, n, p)
    ensures forall i, j :: 0 <= i < n && 0 <= j < p ==> C[i][j] == Sum(m, Prod(A, B, i, j))
  {
    seq(n, i => seq(p, j => Sum(m, Prod(A, B, i, j))))
  }

  /** The transpose of the n-by-m matrix `A`. */
  function Transpose(A: Matrix, n: nat, m: nat): (T: Matrix)
    ensures IsMatrix(T, m, n)
    ensures forall i, j :: 0 <= i < m && 0 <= j < n ==> T[i][j] == At(A, j, i)
  {
    seq(m, i => seq(n, j => At(A, j, i)))
  }

  /** `A C Bᵀ` for an n-by-k `A`, a k-by-l `C` and a p-by-l `B`, the shape of
      every covariance propagation in the filter. */
  function Triple(A: Matrix, C: Matrix, B: Matrix, n: nat, k: nat, l: nat, p: nat): (M: Matrix)
    ensures IsMatrix(M, n, p)
  {
    Mul(Mul(A, C, n, k, l), Transpose(B, p, l), n, l, p)
  }

  /** The terms of entry i of the product `A v`. */
  function RowTimes(A: Matrix, v: Vector, i: int): nat -> real
  {
    k => At(A, i, k) * Get(v, k)
  }

  /** The product of the n-by-m matrix `A` and the vector `v`. */
  function MatVec(A: Matrix, v: Vector, n: nat, m: nat): (r: Vector)
    ensures |r| == n
    ensures forall i :: 0 <= i < n ==> r[i] == Sum(m, RowTimes(A, v, i))
  {
    seq(n, i => Sum(m, RowTimes(A, v, i)))
  }

  function VecAdd(u: Vector, v: Vector): (r: Vector)
    requires |u| == |v|
    ensures |r| == |u| && forall i :: 0 <= i < |u| ==> r[i] == u[i] + v[i]
  {
    seq(|u|, i => Get(u, i) + Get(v, i))
  }

  function VecSub(u: Vector, v: Vector): (r: Vector)
    requires |u| == |v|
    ensures |r| == |u| && forall i :: 0 <= i < |u| ==> r[i] == u[i] - v[i]
  {
    seq(|u|, i => Get(u, i) - Get(v, i))
  }

  /** The h-by-w block of `A` whose top-left entry is (r0, c0). */
  function Block(A: Matrix, r0: nat, c0: nat, h: nat, w: nat): (B: Matrix)
    ensures IsMatrix(B, h, w)
    ensures forall i, j :: 0 <= i < h && 0 <= j < w ==> B[i][j] == At(A, r0 + i, c0 + j)
  {
    seq(h, i => seq(w, j => At(A, r0 + i, c0 + j)))
  }

  /** `insertMatrix`: `A` with the h-by-w block at (r0, c0) overwritten by
      `B`; the shape of `A` is kept. */
  function WriteBlock(A: Matrix, r0: nat, c0: nat, B: Matrix, h: nat, w: nat): (C: Matrix)
    ensures |C| == |A| && forall i :: 0 <= i < |A| ==> |C[i]| == |A[i]|
    ensures forall i, j :: 0 <= i < |A| && 0 <= j < |A[i]| && !(r0 <= i < r0 + h && c0 <= j < c0 + w) ==> C[i][j] == A[i][j]
    ensures forall i, j :: 0 <= i < |A| && 0 <= j < |A[i]| && r0 <= i < r0 + h && c0 <= j < c0 + w ==> C[i][j] == At(B, i - r0, j - c0)
  {
    seq(|A|, i requires 0 <= i < |A| => seq(|A[i]|, j requires 0 <= j < |A[i]| =>
      if r0 <= i < r0 + h && c0 <= j < c0 + w then At(B, i - r0, j - c0) else A[i][j]))
  }

  function Abs(a: real): (r: real)
    ensures r >= 0.0 && (r == a || r == -a)
  {
    if a < 0.0 then -a else a
  }

  /** The absolute values of row `i`. */
  function AbsEntries(A: Matrix, i: int): nat -> real
  {
    j => Abs(At(A, i, j))
  }

  /** The sums of absolute values of each row. */
  function AbsRowSums(A: Matrix, m: nat): nat -> real
  {
    i => Sum(m, AbsEntries(A, i))
  }

  /** `sum_abs()`: the sum of the absolute values of all entries of the
      n-by-m matrix `A`. */
  function SumAbs(A: Matrix, n: nat, m: nat): real
  {
    Sum(n, AbsRowSums(A, m))
  }

  /** One more row of `a` entries each. */
  lemma MulSucc(a: nat, b: nat)
    ensures a * (b + 1) == a * b + a
  {
  }

  /** More rows of `a` entries each are more entries. */
  lemma MulMono(a: nat, b: nat, c: nat)
    requires b <= c
    ensures a * b <= a * c
  {
  }

  /** Dividing a multiple of `f` by `f` is exact. */
  lemma DivOfMultiple(c: nat, f: nat)
    requires f > 0
    ensures (c * f) / f == c && (c * f) % f == 0
  {
    var q, r := (c * f) / f, (c * f) % f;
    assert c * f == q * f + r && 0 <= r < f;
    if q < c {
      MulMono(f, q + 1, c);
      assert false;
    } else if q > c {
      assert false;
    }
  }

  lemma MatrixExt(A: Matrix, B: Matrix, n: nat, m: nat)
    requires IsMatrix(A, n, m) && IsMatrix(B, n, m)
    requires forall i, j :: 0 <= i < n && 0 <= j < m ==> A[i][j] == B[i][j]
    ensures A == B
  {
    forall i | 0 <= i < n
      ensures A[i] == B[i]
    {
    }
  }

  // ---------------------------------------------------------------------
  // Sums

  lemma {:induction false} SumExt(n: nat, f: nat -> real, g: nat -> real)
    requires forall k: nat :: k < n ==> f(k) == g(k)
    ensures Sum(n, f) == Sum(n, g)
  {
    if n > 0 {
      SumExt(n - 1, f, g);
    }
  }

  lemma {:induction false} SumAdd(n: nat, f: nat -> real, g: nat -> real, h: nat -> real)
    requires forall k: nat :: k < n ==> h(k) == f(k) + g(k)
    ensures Sum(n, h) == Sum(n, f) + Sum(n, g)
  {
    if n > 0 {
      SumAdd(n - 1, f, g, h);
    }
  }

  lemma {:induction false} SumZero(n: nat, f: nat -> real)
    requires forall k: nat :: k < n ==> f(k) == 0.0
    ensures Sum(n, f) == 0.0
  {
    if n > 0 {
      SumZero(n - 1, f);
    }
  }

  /** A common factor comes out of a sum. */
  lemma {:induction false} SumScale(n: nat, f: nat -> real, c: real, g: nat -> real)
    requires forall k: nat :: k < n ==> g(k) == f(k) * c
    ensures Sum(n, g) == Sum(n, f) * c
  {
    if n > 0 {
      SumScale(n - 1, f, c, g);
    }
  }

  /** Row q of a double array of terms, as a function of the column. */
  function RowOf(g: (nat, nat) -> real, q: nat): nat -> real
  {
    (r: nat) => g(q, r)
  }

  /** Column r of a double array of terms, as a function of the row. */
  function ColumnOf(g: (nat, nat) -> real, r: nat): nat -> real
  {
    (q: nat) => g(q, r)
  }

  /** The sums of the first `m` terms of each row. */
  function RowSums(g: (nat, nat) -> real, m: nat): nat -> real
  {
    (q: nat) => Sum(m, RowOf(g, q))
  }

  /** The sums of the first `n` terms of each column. */
  function ColumnSums(g: (nat, nat) -> real, n: nat): nat -> real
  {
    (r: nat) => Sum(n, ColumnOf(g, r))
  }

  /** The order of a double sum does not matter. */
  lemma {:induction false} SumSwap(n: nat, m: nat, g: (nat, nat) -> real)
    ensures Sum(n, RowSums(g, m)) == Sum(m, ColumnSums(g, n))
  {
    if n > 0 {
      SumSwap(n - 1, m, g);
      forall r: nat | r < m
        ensures ColumnSums(g, n)(r) == ColumnSums(g, n - 1)(r) + RowOf(g, n - 1)(r)
      {
      }
      SumAdd(m, ColumnSums(g, n - 1), RowOf(g, n - 1), ColumnSums(g, n));
      assert RowSums(g, m)(n - 1) == Sum(m, RowOf(g, n - 1));
    } else {
      SumZero(m, ColumnSums(g, 0));
    }
  }

  // ---------------------------------------------------------------------
  // Products

  /** The terms A(i,q) C(q,r) B(j,r) of entry (i, j) of `A C Bᵀ`. */
  function TripleTerms(A: Matrix, C: Matrix, B: Matrix, i: int, j: int): (nat, nat) -> real
  {
    (q, r) => At(A, i, q) * At(C, q, r) * At(B, j, r)
  }

  /** Entry (i, j) of `A C Bᵀ` as a double sum. */
  lemma TripleEntry(A: Matrix, C: Matrix, B: Matrix, n: nat, k: nat, l: nat, p: nat, i: nat, j: nat)
    requires i < n && j < p
    ensures At(Triple(A, C, B, n, k, l, p), i, j) == Sum(l, ColumnSums(TripleTerms(A, C, B, i, j), k))
  {
    var AC := Mul(A, C, n, k, l);
    var Bt := Transpose(B, p, l);
    var g := TripleTerms(A, C, B, i, j);
    forall r: nat | r < l
      ensures Prod(AC, Bt, i, j)(r) == ColumnSums(g, k)(r)
    {
      SumScale(k, Prod(A, C, i, r), At(B, j, r), ColumnOf(g, r));
    }
    SumExt(l, Prod(AC, Bt, i, j), ColumnSums(g, k));
  }

  /** The terms of entry (i, j) of `A C Bᵀ` grouped by the column `r` of `C`:
      `B(j,r)` times entry (i, r) of `A C`, the order in which the scalar
      update of the filter accumulates them. */
  function Nested(A: Matrix, C: Matrix, B: Matrix, i: int, j: int, k: nat): nat -> real
  {
    (r: nat) => At(B, j, r) * Sum(k, Prod(A, C, i, r))
  }

  /** Entry (i, j) of `A C Bᵀ` as a sum of `Nested` terms. */
  lemma TripleAsNested(A: Matrix, C: Matrix, B: Matrix, n: nat, k: nat, l: nat, p: nat, i: nat, j: nat)
    requires i < n && j < p
    ensures At(Triple(A, C, B, n, k, l, p), i, j) == Sum(l, Nested(A, C, B, i, j, k))
  {
    var AC := Mul(A, C, n, k, l);
    var Bt := Transpose(B, p, l);
    forall r: nat | r < l
      ensures Prod(AC, Bt, i, j)(r) == Nested(A, C, B, i, j, k)(r)
    {
    }
    SumExt(l, Prod(AC, Bt, i, j), Nested(A, C, B, i, j, k));
  }

  /** `(A C Bᵀ)ᵀ = B Cᵀ Aᵀ`, entry by entry. */
  lemma TripleTranspose(A: Matrix, C: Matrix, B: Matrix, n: nat, k: nat, l: nat, p: nat, i: nat, j: nat)
    requires i < n && j < p
    ensures At(Triple(A, C, B, n, k, l, p), i, j) == At(Triple(B, Transpose(C, k, l), A, p, l, k, n), j, i)
  {
    var Ct := Transpose(C, k, l);
    var g := TripleTerms(A, C, B, i, j);
    var h := TripleTerms(B, Ct, A, j, i);
    TripleEntry(A, C, B, n, k, l, p, i, j);
    TripleEntry(B, Ct, A, p, l, k, n, j, i);
    SumSwap(k, l, g);
    forall q: nat | q < k
      ensures RowSums(g, l)(q) == ColumnSums(h, l)(q)
    {
      TransposedRow(A, C, B, k, l, i, j, q);
    }
    SumExt(k, RowSums(g, l), ColumnSums(h, l));
  }

  /** Row `q` of the terms of `A C Bᵀ` at (i, j) is column `q` of the terms
      of `B Cᵀ Aᵀ` at (j, i). */
  lemma TransposedRow(A: Matrix, C: Matrix, B: Matrix, k: nat, l: nat, i: nat, j: nat, q: nat)
    requires q < k
    ensures RowSums(TripleTerms(A, C, B, i, j), l)(q) == ColumnSums(TripleTerms(B, Transpose(C, k, l), A, j, i), l)(q)
  {
    var g := TripleTerms(A, C, B, i, j);
    var h := TripleTerms(B, Transpose(C, k, l), A, j, i);
    forall r: nat | r < l
      ensures RowOf(g, q)(r) == ColumnOf(h, q)(r)
    {
      assert At(Transpose(C, k, l), r, q) == At(C, q, r);
      Reverse3(At(A, i, q), At(C, q, r), At(B, j, r));
    }
    SumExt(l, RowOf(g, q), ColumnOf(h, q));
  }

  lemma Reverse3(a: real, b: real, c: real)
    ensures a * b * c == c * b * a
  {
  }

  /** A symmetric matrix is its own transpose. */
  lemma SymmetricTranspose(C: Matrix, k: nat)
    requires IsMatrix(C, k, k) && Symmetric(C, k)
    ensures Transpose(C, k, k) == C
  {
    MatrixExt(Transpose(C, k, k), C, k, k);
  }

  /** `H C Hᵀ` is symmetric when `C` is. */
  lemma SandwichSymmetric(H: Matrix, C: Matrix, n: nat, k: nat)
    requires IsMatrix(C, k, k) && Symmetric(C, k)
    ensures Symmetric(Triple(H, C, H, n, k, k, n), n)
  {
    SymmetricTranspose(C, k);
    forall i, j | 0 <= i < n && 0 <= j < n
      ensures At(Triple(H, C, H, n, k, k, n), i, j) == At(Triple(H, C, H, n, k, k, n), j, i)
    {
      TripleTranspose(H, C, H, n, k, k, n, i, j);
    }
  }
}
