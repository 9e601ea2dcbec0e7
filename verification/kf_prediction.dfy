/** The prediction stage of the filter as functions of the state: the
    finite-difference Jacobian and the predicted covariance. */
module KalmanPrediction {
  import opened Matrices
  import opened KalmanTypes

  /** `x0` with component `c` moved by `delta`. */
  function Perturbed(x0: Vector, c: nat, delta: real): (v: Vector)
    requires c < |x0|
    ensures |v| == |x0|
  {
    x0[c := x0[c] + delta]
  }

  /** `f` at `v`. */
  function Sample(f: Vector -> Vector, v: Vector): Vector
  {
    f(v)
  }

  /** The central difference of component `r` of `f` along input `c`. */
  function CentralDifference(f: Vector -> Vector, x0: Vector, incr: Vector, r: nat, c: nat): real
    requires c < |x0| == |incr| && Positive(incr)
  {
    (0.5 / incr[c]) * (Get(Sample(f, Perturbed(x0, c, incr[c])), r) - Get(Sample(f, Perturbed(x0, c, -incr[c])), r))
  }

  /** Column `c` of the estimate: the central difference of every
      component of `f` along input `c`. */
  function DifferenceColumn(f: Vector -> Vector, x0: Vector, incr: Vector, rows: nat, c: nat): (col: Vector)
    requires c < |x0| == |incr| && Positive(incr)
    ensures |col| == rows
  {
    seq(rows, r requires 0 <= r => CentralDifference(f, x0, incr, r, c))
  }

  /** `estimateJacobian`: the `rows`-by-|x0| Jacobian of `f` at `x0` by
      central differences with the given increments. */
  function NumericJacobian(f: Vector -> Vector, x0: Vector, incr: Vector, rows: nat): (J: Matrix)
    requires |x0| == |incr| && Positive(incr)
    ensures IsMatrix(J, rows, |x0|)
    ensures forall r, c :: 0 <= r < rows && 0 <= c < |x0| ==> J[r][c] == CentralDifference(f, x0, incr, r, c)
  {
    seq(rows, r requires 0 <= r => seq(|x0|, c requires 0 <= c < |x0| => CentralDifference(f, x0, incr, r, c)))
  }

  /** The numeric Jacobian of an affine map is its matrix: the estimator is
      exact on the functions it is meant to approximate. */
  lemma NumericJacobianOfAffine(A: Matrix, b: Vector, x0: Vector, incr: Vector, rows: nat)
    requires |x0| == |incr| && Positive(incr) && IsMatrix(A, rows, |x0|) && |b| == rows
    ensures NumericJacobian(Affine(A, b, rows), x0, incr, rows) == A
  {
    var J := NumericJacobian(Affine(A, b, rows), x0, incr, rows);
    forall r, c | 0 <= r < rows && 0 <= c < |x0|
      ensures J[r][c] == A[r][c]
    {
      AffineDifference(A, b, x0, incr, rows, r, c);
    }
    MatrixExt(J, A, rows, |x0|);
  }

  /** `v ↦ A v + b`. */
  function Affine(A: Matrix, b: Vector, rows: nat): Vector -> Vector
    requires |b| == rows
  {
    v => VecAdd(MatVec(A, v, rows, |v|), b)
  }

  lemma AffineDifference(A: Matrix, b: Vector, x0: Vector, incr: Vector, rows: nat, r: nat, c: nat)
    requires |x0| == |incr| && Positive(incr) && IsMatrix(A, rows, |x0|) && |b| == rows
    requires r < rows && c < |x0|
    ensures CentralDifference(Affine(A, b, rows), x0, incr, r, c) == A[r][c]
  {
    AffineProbes(A, b, rows, x0, incr, r, c);
    DifferenceOfSlope(Affine(A, b, rows), x0, incr, r, c, A[r][c]);
  }

  /** Row `r` of `A v + b` moves by `2 h A(r,c)` between the probes. */
  lemma AffineProbes(A: Matrix, b: Vector, rows: nat, x0: Vector, incr: Vector, r: nat, c: nat)
    requires IsMatrix(A, rows, |x0|) && |b| == rows && r < rows && c < |x0| == |incr|
    ensures Get(Sample(Affine(A, b, rows), Perturbed(x0, c, incr[c])), r)
          - Get(Sample(Affine(A, b, rows), Perturbed(x0, c, -incr[c])), r) == 2.0 * incr[c] * A[r][c]
  {
    var plus, minus := Perturbed(x0, c, incr[c]), Perturbed(x0, c, -incr[c]);
    AffineRowDifference(A, b, rows, plus, minus, r);
    RowTimesPerturbed(A, x0, r, c, incr[c]);
  }

  /** The offset `b` cancels between two rows `r` of `A v + b`. */
  lemma AffineRowDifference(A: Matrix, b: Vector, rows: nat, v: Vector, v': Vector, r: nat)
    requires |b| == rows && r < rows && |v| == |v'|
    ensures Get(Sample(Affine(A, b, rows), v), r) - Get(Sample(Affine(A, b, rows), v'), r)
         == Sum(|v|, RowTimes(A, v, r)) - Sum(|v|, RowTimes(A, v', r))
  {
    AffineRow(A, b, rows, v, r);
    AffineRow(A, b, rows, v', r);
  }

  /** A component that moves by `2 h a` between the two probes has central
      difference `a`. */
  lemma DifferenceOfSlope(f: Vector -> Vector, x0: Vector, incr: Vector, r: nat, c: nat, a: real)
    requires c < |x0| == |incr| && Positive(incr)
    requires Get(Sample(f, Perturbed(x0, c, incr[c])), r) - Get(Sample(f, Perturbed(x0, c, -incr[c])), r) == 2.0 * incr[c] * a
    ensures CentralDifference(f, x0, incr, r, c) == a
  {
    HalfOver(incr[c], a, Get(Sample(f, Perturbed(x0, c, incr[c])), r), Get(Sample(f, Perturbed(x0, c, -incr[c])), r));
  }

  /** Row `r` of `A v + b`. */
  lemma AffineRow(A: Matrix, b: Vector, rows: nat, v: Vector, r: nat)
    requires |b| == rows && r < rows
    ensures Get(Sample(Affine(A, b, rows), v), r) == Sum(|v|, RowTimes(A, v, r)) + b[r]
  {
  }

  /** Moving input `c` from `-h` to `+h` moves row `r` of `A v` by `2 h A(r,c)`. */
  lemma RowTimesPerturbed(A: Matrix, x0: Vector, r: nat, c: nat, h: real)
    requires c < |x0| && r < |A| && |A[r]| == |x0|
    ensures Sum(|x0|, RowTimes(A, Perturbed(x0, c, h), r))
         == Sum(|x0|, RowTimes(A, Perturbed(x0, c, -h), r)) + 2.0 * h * A[r][c]
  {
    var plus := Perturbed(x0, c, h);
    var minus := Perturbed(x0, c, -h);
    var d := 2.0 * h * A[r][c];
    forall k: nat | k < |x0|
      ensures RowTimes(A, plus, r)(k) == RowTimes(A, minus, r)(k) + Unit(c, d)(k)
    {
      if k == c {
        assert plus[k] == minus[k] + 2.0 * h;
      } else {
        assert plus[k] == minus[k];
      }
    }
    SumAdd(|x0|, RowTimes(A, minus, r), Unit(c, d), RowTimes(A, plus, r));
    SumSingle(|x0|, c, d);
  }

  /** Two values `2 h a` apart differ by `a` per unit of `2 h`. */
  lemma HalfOver(h: real, a: real, up: real, down: real)
    requires h > 0.0 && up - down == 2.0 * h * a
    ensures (0.5 / h) * (up - down) == a
  {
    calc {
      (0.5 / h) * (2.0 * h * a);
      (0.5 / h) * h * 2.0 * a;
      { assert (0.5 / h) * h == 0.5; }
      a;
    }
  }

  /** The terms that are `v` at `c` and 0 elsewhere. */
  function Unit(c: nat, v: real): nat -> real
  {
    k => if k == c then v else 0.0
  }

  /** A sum with one non-zero term. */
  lemma {:induction false} SumSingle(n: nat, c: nat, v: real)
    requires c < n
    ensures Sum(n, Unit(c, v)) == v
  {
    if n - 1 == c {
      SumZero(n - 1, Unit(c, v));
    } else {
      SumSingle(n - 1, c, v);
    }
  }

  /** The new vehicle block `Q + F Pvv Fᵀ`. */
  function PredictedVehicleBlock(P: Matrix, F: Matrix, Q: Matrix, veh: nat): (vv: Matrix)
    ensures IsMatrix(vv, veh, veh)
  {
    Add(Q, Triple(F, Block(P, 0, 0, veh, veh), F, veh, veh, veh, veh), veh, veh)
  }

  /** Entry (r, c) of the covariance after the prediction stage: the
      vehicle block becomes `Q + F Pvv Fᵀ`, every vehicle row of the
      landmark columns `F` times that column (columns below `reach`, the
      end of the last landmark), the mirrored entries their transposes, and
      every other entry is kept. */
  function PredictedEntry(P: Matrix, F: Matrix, Q: Matrix, veh: nat, reach: nat, r: nat, c: nat): real
  {
    if r < veh && c < veh then At(PredictedVehicleBlock(P, F, Q, veh), r, c)
    else if r < veh && c < reach then Sum(veh, Prod(F, P, r, c))
    else if c < veh && r < reach then Sum(veh, Prod(F, P, c, r))
    else At(P, r, c)
  }

  /** The n-by-n covariance after the prediction stage. */
  function PredictedCovariance(P: Matrix, F: Matrix, Q: Matrix, veh: nat, reach: nat, n: nat): (P': Matrix)
    ensures IsMatrix(P', n, n)
    ensures forall r, c :: 0 <= r < n && 0 <= c < n ==> P'[r][c] == PredictedEntry(P, F, Q, veh, reach, r, c)
  {
    seq(n, r requires 0 <= r => seq(n, c requires 0 <= c => PredictedEntry(P, F, Q, veh, reach, r, c)))
  }

  /** One pass of the landmark loop of the prediction: writing `F` times the
      vehicle rows of the landmark at `off`, and their transpose, extends
      the predicted part by that landmark. */
  lemma PredictionStep(P0: Matrix, Pc: Matrix, F: Matrix, Q: Matrix, veh: nat, feat: nat, off: nat, n: nat)
    requires IsMatrix(Pc, n, n) && veh <= off && off + feat <= n
    requires forall r, c :: 0 <= r < n && 0 <= c < n ==> Pc[r][c] == PredictedEntry(P0, F, Q, veh, off, r, c)
    ensures var aux := Mul(F, Block(Pc, 0, off, veh, feat), veh, veh, feat);
      var P1 := WriteBlock(WriteBlock(Pc, 0, off, aux, veh, feat), off, 0, Transpose(aux, veh, feat), feat, veh);
      && IsMatrix(P1, n, n)
      && forall r, c :: 0 <= r < n && 0 <= c < n ==> P1[r][c] == PredictedEntry(P0, F, Q, veh, off + feat, r, c)
  {
    var B := Block(Pc, 0, off, veh, feat);
    var aux := Mul(F, B, veh, veh, feat);
    forall r, c | 0 <= r < veh && 0 <= c < feat
      ensures aux[r][c] == Sum(veh, Prod(F, P0, r, off + c))
    {
      forall k: nat | k < veh
        ensures Prod(F, B, r, c)(k) == Prod(F, P0, r, off + c)(k)
      {
        assert At(B, k, c) == Pc[k][off + c] == At(P0, k, off + c);
      }
      SumExt(veh, Prod(F, B, r, c), Prod(F, P0, r, off + c));
    }
  }

  /** The prediction keeps the covariance symmetric when `Q` is. */
  lemma PredictionKeepsSymmetry(P: Matrix, F: Matrix, Q: Matrix, veh: nat, reach: nat, n: nat)
    requires IsMatrix(P, n, n) && Symmetric(P, n) && Symmetric(Q, veh)
    ensures Symmetric(PredictedCovariance(P, F, Q, veh, reach, n), n)
  {
    var Pvv := Block(P, 0, 0, veh, veh);
    assert Symmetric(Pvv, veh);
    SandwichSymmetric(F, Pvv, veh, veh);
  }

  /** With an identity Jacobian and no process noise the prediction leaves
      a symmetric covariance exactly as it was. */
  lemma IdentityPredictionKeepsCovariance(P: Matrix, veh: nat, reach: nat, n: nat)
    requires IsMatrix(P, n, n) && Symmetric(P, n) && veh <= n
    ensures PredictedCovariance(P, Identity(veh), Zero(veh, veh), veh, reach, n) == P
  {
    var I := Identity(veh);
    var P' := PredictedCovariance(P, I, Zero(veh, veh), veh, reach, n);
    forall r, c | 0 <= r < n && 0 <= c < n
      ensures P'[r][c] == P[r][c]
    {
      if r < veh && c < veh {
        IdentitySandwichEntry(P, veh, r, c);
      } else if r < veh && c < reach {
        IdentityRow(P, veh, r, c);
      } else if c < veh && r < reach {
        IdentityRow(P, veh, c, r);
      }
    }
    MatrixExt(P', P, n, n);
  }

  /** Entry (r, c) of `I Pvv Iᵀ` is entry (r, c) of `P`. */
  lemma IdentitySandwichEntry(P: Matrix, veh: nat, r: nat, c: nat)
    requires r < veh && c < veh
    ensures At(Triple(Identity(veh), Block(P, 0, 0, veh, veh), Identity(veh), veh, veh, veh, veh), r, c) == At(P, r, c)
  {
    var I := Identity(veh);
    var Pvv := Block(P, 0, 0, veh, veh);
    TripleEntry(I, Pvv, I, veh, veh, veh, veh, r, c);
    var g := TripleTerms(I, Pvv, I, r, c);
    forall q: nat | q < veh
      ensures ColumnSums(g, veh)(q) == Unit(c, At(P, r, c))(q)
    {
      forall k: nat | k < veh
        ensures ColumnOf(g, q)(k) == Unit(r, Unit(c, At(P, r, c))(q))(k)
      {
      }
      SumExt(veh, ColumnOf(g, q), Unit(r, Unit(c, At(P, r, c))(q)));
      SumSingle(veh, r, Unit(c, At(P, r, c))(q));
    }
    SumExt(veh, ColumnSums(g, veh), Unit(c, At(P, r, c)));
    SumSingle(veh, c, At(P, r, c));
  }

  /** Row `r` of the identity times column `c` picks entry (r, c). */
  lemma IdentityRow(P: Matrix, veh: nat, r: nat, c: nat)
    requires r < veh
    ensures Sum(veh, Prod(Identity(veh), P, r, c)) == At(P, r, c)
  {
    SumExt(veh, Prod(Identity(veh), P, r, c), Unit(r, At(P, r, c)));
    SumSingle(veh, r, At(P, r, c));
  }
}
