/** `cs_norm`: the 1-norm of a compressed-column matrix, the largest sum of
    absolute values over one column. */
module CsNorm {
  import opened CsMatrix

  function Abs(v: real): (r: real)
    ensures r >= 0.0 && (r == v || r == -v)
  {
    if v < 0.0 then -v else v
  }

  /** `CS_MAX`. */
  function Max(a: real, b: real): (r: real)
    ensures r >= a && r >= b && (r == a || r == b)
  {
    if a > b then a else b
  }

  /** The sum of |xs[q]| for lo <= q < hi, accumulated from lo upward. */
  function ColumnSum(xs: seq<real>, lo: int, hi: int): (r: real)
    requires 0 <= lo && hi <= |xs|
    decreases hi - lo
  {
    if hi <= lo then 0.0 else ColumnSum(xs, lo, hi - 1) + Abs(xs[hi - 1])
  }

  /** The running norm after the first `j` columns: 0 combined by `Max` with
      each column sum in turn. */
  function MaxColumnSum(xs: seq<real>, ps: seq<int>, j: int): real
    requires Pointers(ps, j, |xs|)
  {
    if j == 0 then 0.0 else Max(MaxColumnSum(xs, ps, j - 1), ColumnSum(xs, ps[j - 1], ps[j]))
  }

  /** A sum of absolute values is never negative. */
  lemma {:induction false} ColumnSumNonNegative(xs: seq<real>, lo: int, hi: int)
    requires 0 <= lo && hi <= |xs|
    ensures ColumnSum(xs, lo, hi) >= 0.0
    decreases hi - lo
  {
    if hi > lo {
      ColumnSumNonNegative(xs, lo, hi - 1);
    }
  }

  /** The running norm is at least 0 and at least every column sum seen so
      far, and it is 0 or one of those sums. */
  lemma {:induction false} MaxColumnSumIsMaximum(xs: seq<real>, ps: seq<int>, j: int)
    requires Pointers(ps, j, |xs|)
    ensures MaxColumnSum(xs, ps, j) >= 0.0
    ensures forall c :: 0 <= c < j ==> MaxColumnSum(xs, ps, j) >= ColumnSum(xs, ps[c], ps[c + 1])
    ensures MaxColumnSum(xs, ps, j) == 0.0
         || exists c :: 0 <= c < j && MaxColumnSum(xs, ps, j) == ColumnSum(xs, ps[c], ps[c + 1])
  {
    if j > 0 {
      MaxColumnSumIsMaximum(xs, ps, j - 1);
      var prev := MaxColumnSum(xs, ps, j - 1);
      var last := ColumnSum(xs, ps[j - 1], ps[j]);
      assert MaxColumnSum(xs, ps, j) == Max(prev, last);
      if MaxColumnSum(xs, ps, j) != 0.0 {
        if MaxColumnSum(xs, ps, j) == last {
          assert ColumnSum(xs, ps[j - 1], ps[(j - 1) + 1]) == last;
        } else {
          var c :| 0 <= c < j - 1 && prev == ColumnSum(xs, ps[c], ps[c + 1]);
          assert MaxColumnSum(xs, ps, j) == ColumnSum(xs, ps[c], ps[c + 1]);
        }
      }
    }
  }

  /** `cs_norm`: -1 for a matrix that is not in compressed-column form or has
      no values, otherwise the largest column sum of absolute values (0 for a
      matrix without columns). Nothing is modified. */
  method Norm(A: Cs?) returns (norm: real)
    requires IsCsc(A) && A.x != null ==> A.ValueShape()
    ensures !(IsCsc(A) && A.x != null) ==> norm == -1.0
    ensures IsCsc(A) && A.x != null ==> norm == MaxColumnSum(A.x[..], A.p[..], A.n)
  {
    if !IsCsc(A) || A.x == null {
      return -1.0;
    }
    var n, Ap, Ax := A.n, A.p, A.x;
    norm := 0.0;
    var j := 0;
    while j < n
      invariant 0 <= j <= n
      invariant norm == MaxColumnSum(Ax[..], Ap[..], j)
    {
      var s := 0.0;
      var q := Ap[j];
      while q < Ap[j + 1]
        invariant Ap[j] <= q <= Ap[j + 1]
        invariant s == ColumnSum(Ax[..], Ap[j], q)
      {
        s := s + Abs(Ax[q]);
        q := q + 1;
      }
      norm := Max(norm, s);
      j := j + 1;
    }
  }

  /** The norm of a valid matrix is 0 or more, bounds every column sum, and is
      attained by a column unless it is 0. */
  lemma NormIsLargestColumnSum(A: Cs)
    requires IsCsc(A) && A.ValueShape()
    ensures MaxColumnSum(A.x[..], A.p[..], A.n) >= 0.0
    ensures forall c :: 0 <= c < A.n ==>
      MaxColumnSum(A.x[..], A.p[..], A.n) >= ColumnSum(A.x[..], A.p[c], A.p[c + 1])
    ensures A.n == 0 ==> MaxColumnSum(A.x[..], A.p[..], A.n) == 0.0
    ensures MaxColumnSum(A.x[..], A.p[..], A.n) == 0.0
         || exists c :: 0 <= c < A.n && MaxColumnSum(A.x[..], A.p[..], A.n) == ColumnSum(A.x[..], A.p[c], A.p[c + 1])
  {
    MaxColumnSumIsMaximum(A.x[..], A.p[..], A.n);
  }

  /** Every column sum is 0 or more, so the norm is 0 exactly when every
      value is 0. */
  lemma {:induction false} ColumnSumZeroIff(xs: seq<real>, lo: int, hi: int)
    requires 0 <= lo && hi <= |xs|
    ensures ColumnSum(xs, lo, hi) == 0.0 <==> forall q :: lo <= q < hi ==> xs[q] == 0.0
    decreases hi - lo
  {
    if hi > lo {
      ColumnSumZeroIff(xs, lo, hi - 1);
      ColumnSumNonNegative(xs, lo, hi - 1);
    }
  }
}
