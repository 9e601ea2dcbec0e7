/** The CSparse matrix record (`cs`): in compressed-sparse-column form the row
    indices of column j are `i[p[j] .. p[j+1])` and their values are
    `x[p[j] .. p[j+1])`; `nz == -1` marks that form (a triplet matrix keeps its
    entry count there instead). */
module CsMatrix {

  class Cs {
    var nzmax: int
    var m: int
    var n: int
    var p: array<int>
    var i: array<int>
    var x: array?<real>
    var nz: int

    constructor (m': int, n': int, p': array<int>, i': array<int>, x': array?<real>, nz': int)
      ensures m == m' && n == n' && p == p' && i == i' && x == x' && nz == nz'
      ensures nzmax == i'.Length
    {
      m, n, p, i, x, nz := m', n', p', i', x', nz';
      nzmax := i'.Length;
    }

    /** The column pointers delimit ranges of the row-index array, one per
        column and in order. */
    ghost predicate ColumnShape()
      reads this, p
    {
      && n >= 0
      && p.Length >= n + 1
      && Pointers(p[..], n, i.Length)
    }

    /** The column ranges also lie inside the value array. */
    ghost predicate ValueShape()
      reads this, p, x
    {
      && ColumnShape()
      && x != null
      && p[n] <= x.Length
    }
  }

  /** The first `n + 1` column pointers run from 0 or more up to at most
      `len`, never decreasing. */
  predicate Pointers(ps: seq<int>, n: int, len: int)
  {
    && 0 <= n < |ps|
    && 0 <= ps[0]
    && ps[n] <= len
    && forall c, d :: 0 <= c <= d <= n ==> ps[c] <= ps[d]
  }

  /** `CS_CSC(A)`: a non-null matrix in compressed-column form. */
  predicate IsCsc(A: Cs?)
    reads A
  {
    A != null && A.nz == -1
  }
}
