/** The update stage of the filter as functions of the state: the full
    (batch) EKF / IKF update and the scalar-at-a-time update "a la Davison",
    with every way they can fail. */
module KalmanUpdate {
  import opened Matrices
  import opened KalmanTypes
  import opened KalmanJacobians
  import opened KalmanInnovation

  // ---------------------------------------------------------------------
  // Full update: the observed part of the problem

  /** The associations other than -1, in order (`remove_copy_if`). */
  function Kept(da: seq<int>): (r: seq<int>)
    ensures forall v :: v in r <==> v in da && v != -1
    ensures |r| <= |da|
  {
    if |da| == 0 then []
    else Kept(da[..|da| - 1]) + if da[|da| - 1] == -1 then [] else [da[|da| - 1]]
  }

  /** How many associations name a landmark of the map. */
  function Known(da: seq<int>): (r: nat)
    ensures r <= |da|
    ensures r == 0 <==> forall k :: 0 <= k < |da| ==> da[k] < 0
  {
    if |da| == 0 then 0
    else Known(da[..|da| - 1]) + if da[|da| - 1] >= 0 then 1 else 0
  }

  /** With associations of -1 or more, the kept ones are the known ones: the
      number of updated landmarks the filter sizes its matrices with is the
      number of blocks it fills. */
  lemma {:induction false} KeptCountsKnown(da: seq<int>)
    requires forall k :: 0 <= k < |da| ==> da[k] >= -1
    ensures |Kept(da)| == Known(da)
  {
    if |da| > 0 {
      KeptCountsKnown(da[..|da| - 1]);
    }
  }

  /** The `obs` rows of the full observation Jacobian for one observed
      landmark whose block starts at `off`: `Hx` under the vehicle, `Hy`
      under the landmark, zero elsewhere. */
  function ObservationRows(Hx: Matrix, Hy: Matrix, off: nat, n: nat, d: Dims): (H: Matrix)
    ensures IsMatrix(H, d.obs, n)
  {
    seq(d.obs, a => seq(n, c =>
      if c < d.veh then At(Hx, a, c)
      else if off <= c < off + d.feat then At(Hy, a, c - off)
      else 0.0))
  }

  /** The part of the problem the update sees: the observation Jacobian `H`,
      the innovation `y` and, for each observed landmark, its place in the
      prediction list. */
  datatype Observed = Observed(H: Matrix, y: Vector, sIdx: seq<nat>)

  /** `Observed` after the first `k` associations; an association to a
      landmark missing from the prediction list is an error. */
  function ObservedUpTo(k: nat, da: seq<int>, Z: seq<Vector>, idxs: seq<nat>, Hxs: seq<Matrix>, Hys: seq<Matrix>, preds: seq<Vector>, m: UserModel, n: nat, d: Dims): (r: Result<Observed>)
    requires Subtracting(m, d)
    requires k <= |da| == |Z| && |Hxs| == |Hys| == |idxs|
    requires forall i :: 0 <= i < |da| ==> da[i] < |preds| && |Z[i]| == d.obs
    ensures r.Ok? ==> IsMatrix(r.value.H, d.obs * |r.value.sIdx|, n) && |r.value.y| == d.obs * |r.value.sIdx|
    ensures r.Ok? ==> |r.value.sIdx| == Known(da[..k]) && forall p :: p in r.value.sIdx ==> p < |idxs|
    ensures r.Err? ==> r.error == LandmarkNotPredicted
  {
    if k == 0 then Ok(Observed([], [], []))
    else
      assert da[..k][..k - 1] == da[..k - 1];
      match ObservedUpTo(k - 1, da, Z, idxs, Hxs, Hys, preds, m, n, d)
      case Err(e) => Err(e)
      case Ok(o) =>
        if da[k - 1] < 0 then Ok(o)
        else
          var l := da[k - 1] as nat;
          match Find(idxs, l)
          case None => Err(LandmarkNotPredicted)
          case Some(p) =>
            MulSucc(d.obs, |o.sIdx|);
            Ok(Observed(o.H + ObservationRows(Hxs[p], Hys[p], Offset(d, l), n, d),
                        o.y + m.subtract(Z[k - 1], preds[l]),
                        o.sIdx + [p]))
  }

  /** An unpredicted landmark ends the walk: later associations do not
      change the error. */
  lemma {:induction false} ObservedUpToStops(j: nat, k: nat, da: seq<int>, Z: seq<Vector>, idxs: seq<nat>, Hxs: seq<Matrix>, Hys: seq<Matrix>, preds: seq<Vector>, m: UserModel, n: nat, d: Dims)
    requires Subtracting(m, d)
    requires j <= k <= |da| == |Z| && |Hxs| == |Hys| == |idxs|
    requires forall i :: 0 <= i < |da| ==> da[i] < |preds| && |Z[i]| == d.obs
    requires ObservedUpTo(j, da, Z, idxs, Hxs, Hys, preds, m, n, d).Err?
    ensures ObservedUpTo(k, da, Z, idxs, Hxs, Hys, preds, m, n, d) == ObservedUpTo(j, da, Z, idxs, Hxs, Hys, preds, m, n, d)
    decreases k
  {
    if j < k {
      ObservedUpToStops(j, k - 1, da, Z, idxs, Hxs, Hys, preds, m, n, d);
    }
  }

  /** After the data-association retry, when no association is missing from
      the prediction list, the full update never finds an unpredicted
      landmark. */
  lemma {:induction false} AllPredictedObserves(k: nat, da: seq<int>, Z: seq<Vector>, idxs: seq<nat>, Hxs: seq<Matrix>, Hys: seq<Matrix>, preds: seq<Vector>, m: UserModel, n: nat, d: Dims)
    requires WellFormed(m, d)
    requires k <= |da| == |Z| && |Hxs| == |Hys| == |idxs|
    requires forall i :: 0 <= i < |da| ==> da[i] < |preds| && |Z[i]| == d.obs
    requires Missing(da, idxs) == []
    ensures ObservedUpTo(k, da, Z, idxs, Hxs, Hys, preds, m, n, d).Ok?
  {
    if k > 0 {
      AllPredictedObserves(k - 1, da, Z, idxs, Hxs, Hys, preds, m, n, d);
      MissingIsExact(da, idxs);
    }
  }

  /** Entry (r, c) of the innovation restricted to the observed landmarks,
      read from the grid (`extractSubmatrixSymmetrical`). */
  function ObservedEntry(S: seq<seq<Matrix>>, sIdx: seq<nat>, o: nat, r: nat, c: nat): real
  {
    if o == 0 || r / o >= |sIdx| || c / o >= |sIdx| then 0.0
    else
      var i, j := sIdx[r / o], sIdx[c / o];
      if i < |S| && j < |S[i]| then At(S[i][j], r % o, c % o) else 0.0
  }

  /** `S_observed`: the innovation of the observed landmarks, in the order
      they were observed. */
  function ObservedInnovation(S: seq<seq<Matrix>>, sIdx: seq<nat>, o: nat): (So: Matrix)
    ensures IsMatrix(So, o * |sIdx|, o * |sIdx|)
  {
    seq(o * |sIdx|, r requires 0 <= r => seq(o * |sIdx|, c requires 0 <= c => ObservedEntry(S, sIdx, o, r, c)))
  }

  /** The observed innovation of a symmetric grid is symmetric, whatever
      landmarks were observed and in whatever order. */
  lemma ObservedInnovationSymmetric(S: seq<seq<Matrix>>, N: nat, sIdx: seq<nat>, o: nat)
    requires Grid(S, N, o) && BlockSymmetric(S, N, o)
    requires forall p :: p in sIdx ==> p < N
    ensures Symmetric(ObservedInnovation(S, sIdx, o), o * |sIdx|)
  {
    var So := ObservedInnovation(S, sIdx, o);
    forall r, c | 0 <= r < o * |sIdx| && 0 <= c < o * |sIdx|
      ensures At(So, r, c) == At(So, c, r)
    {
      ObservedEntrySymmetric(S, N, sIdx, o, r, c);
    }
  }

  lemma ObservedEntrySymmetric(S: seq<seq<Matrix>>, N: nat, sIdx: seq<nat>, o: nat, r: nat, c: nat)
    requires Grid(S, N, o) && BlockSymmetric(S, N, o)
    requires forall p :: p in sIdx ==> p < N
    ensures ObservedEntry(S, sIdx, o, r, c) == ObservedEntry(S, sIdx, o, c, r)
  {
    if o > 0 && r / o < |sIdx| && c / o < |sIdx| {
      var i, j := sIdx[r / o], sIdx[c / o];
      assert i in sIdx && j in sIdx;
      assert S[i][j][r % o][c % o] == S[j][i][c % o][r % o];
    }
  }

  /** `K = P Hᵀ S⁻¹`. */
  function Gain(P: Matrix, H: Matrix, So: Matrix, m: UserModel, n: nat, rows: nat): (K: Matrix)
    ensures IsMatrix(K, n, rows)
  {
    Mul(Mul(P, Transpose(H, rows, n), n, n, rows), m.inverse(So), n, rows, rows)
  }

  // ---------------------------------------------------------------------
  // Full update: the mean and the covariance

  /** One IKF step from the linearisation point `x0`:
      `x0 + K (y - H (xt - x0))`. */
  function MeanStep(x0: Vector, xt: Vector, K: Matrix, H: Matrix, y: Vector, rows: nat): (x: Vector)
    requires |xt| == |x0| && |y| == rows
    ensures |x| == |x0|
  {
    VecAdd(x0, MatVec(K, VecSub(y, MatVec(H, VecSub(xt, x0), rows, |x0|)), |x0|, rows))
  }

  /** The IKF mean after `t` steps from `x0`. */
  function Iterated(x0: Vector, K: Matrix, H: Matrix, y: Vector, rows: nat, t: nat): (x: Vector)
    requires |y| == rows
    ensures |x| == |x0|
  {
    if t == 0 then x0 else MeanStep(x0, Iterated(x0, K, H, y, rows, t - 1), K, H, y, rows)
  }

  /** The mean after the update: `x + K y` for a single iteration, the IKF
      steps otherwise. */
  function UpdatedMean(x0: Vector, K: Matrix, H: Matrix, y: Vector, rows: nat, nIter: nat): (x: Vector)
    requires |y| == rows
    ensures |x| == |x0|
  {
    if nIter == 1 then VecAdd(x0, MatVec(K, y, |x0|, rows)) else Iterated(x0, K, H, y, rows, nIter)
  }

  /** The first IKF step is the EKF update. */
  lemma FirstStepIsEkf(x0: Vector, K: Matrix, H: Matrix, y: Vector, rows: nat)
    requires |y| == rows
    ensures MeanStep(x0, x0, K, H, y, rows) == VecAdd(x0, MatVec(K, y, |x0|, rows))
  {
    var dx := VecSub(x0, x0);
    var Hdx := MatVec(H, dx, rows, |x0|);
    forall i | 0 <= i < rows
      ensures Hdx[i] == 0.0
    {
      SumZero(|x0|, RowTimes(H, dx, i));
    }
    assert VecSub(y, Hdx) == y;
  }

  /** So the single-iteration branch is the IKF with one step, and the mean
      is always the IKF iterate. */
  lemma UpdatedMeanIsIterated(x0: Vector, K: Matrix, H: Matrix, y: Vector, rows: nat, nIter: nat)
    requires |y| == rows
    ensures UpdatedMean(x0, K, H, y, rows, nIter) == Iterated(x0, K, H, y, rows, nIter)
  {
    if nIter == 1 {
      FirstStepIsEkf(x0, K, H, y, rows);
    }
  }

  /** `P' = (I - K H) P`. */
  function UpdatedCovariance(P: Matrix, K: Matrix, H: Matrix, n: nat, rows: nat): (P': Matrix)
    ensures IsMatrix(P', n, n)
  {
    Mul(Sub(Identity(n), Mul(K, H, n, rows, n), n, n), P, n, n, n)
  }

  /** A zero gain leaves the covariance as it was. */
  lemma ZeroGainKeepsCovariance(P: Matrix, H: Matrix, n: nat, rows: nat)
    requires IsMatrix(P, n, n)
    ensures UpdatedCovariance(P, Zero(n, rows), H, n, rows) == P
  {
    var KH := Mul(Zero(n, rows), H, n, rows, n);
    var A := Sub(Identity(n), KH, n, n);
    forall r, c | 0 <= r < n && 0 <= c < n
      ensures A[r][c] == Identity(n)[r][c]
    {
      SumZero(rows, Prod(Zero(n, rows), H, r, c));
    }
    MatrixExt(A, Identity(n), n, n);
    var P' := UpdatedCovariance(P, Zero(n, rows), H, n, rows);
    forall r, c | 0 <= r < n && 0 <= c < n
      ensures P'[r][c] == P[r][c]
    {
      SumExt(n, Prod(A, P, r, c), Prod(Identity(n), P, r, c));
      SumExt(n, Prod(Identity(n), P, r, c), UnitAt(r, At(P, r, c)));
      SumUnitAt(n, r, At(P, r, c));
    }
    MatrixExt(P', P, n, n);
  }

  /** The terms that are `v` at `c` and 0 elsewhere. */
  function UnitAt(c: nat, v: real): nat -> real
  {
    (k: nat) => if k == c then v else 0.0
  }

  lemma {:induction false} SumUnitAt(n: nat, c: nat, v: real)
    requires c < n
    ensures Sum(n, UnitAt(c, v)) == v
  {
    if n - 1 == c {
      SumZero(n - 1, UnitAt(c, v));
    } else {
      SumUnitAt(n - 1, c, v);
    }
  }

  // ---------------------------------------------------------------------
  // Full update

  /** What the full update linearises about: `H`, `y`, the observed
      innovation and its size. */
  datatype Linearization = Linearization(H: Matrix, y: Vector, So: Matrix, rows: nat)

  /** The preconditions the whole update stage works under: a square
      covariance, the Jacobian lists of the prediction list, associations
      and observations as the data association returns them. */
  ghost predicate UpdateReady(n: nat, P: Matrix, Z: seq<Vector>, da: seq<int>, S: seq<seq<Matrix>>, idxs: seq<nat>, Hxs: seq<Matrix>, Hys: seq<Matrix>, preds: seq<Vector>, m: UserModel, d: Dims)
  {
    && WellFormed(m, d)
    && IsMatrix(P, n, n)
    && |Hxs| == |Hys| == |idxs|
    && (forall i :: 0 <= i < |idxs| ==> IsMatrix(Hxs[i], d.obs, d.veh) && IsMatrix(Hys[i], d.obs, d.feat))
    && Associated((Z, da), |preds|, d)
    && Grid(S, |idxs|, d.obs)
    && (d.feat == 0 ==> n == d.veh && |idxs| == 1)
  }

  /** The linearisation of the full update; in a filter without landmarks
      exactly one observation and one prediction are required. */
  function Linearize(n: nat, P: Matrix, Z: seq<Vector>, da: seq<int>, S: seq<seq<Matrix>>, idxs: seq<nat>, Hxs: seq<Matrix>, Hys: seq<Matrix>, preds: seq<Vector>, m: UserModel, d: Dims): (r: Result<Linearization>)
    requires UpdateReady(n, P, Z, da, S, idxs, Hxs, Hys, preds, m, d)
    ensures r.Ok? ==> IsMatrix(r.value.H, r.value.rows, n) && |r.value.y| == r.value.rows
  {
    if d.feat == 0 then
      if |Z| == 1 && |preds| == 1 then
        Ok(Linearization(Hxs[0], m.subtract(Z[0], preds[0]), S[0][0], d.obs))
      else Err(NonSlamShape)
    else
      match ObservedUpTo(|da|, da, Z, idxs, Hxs, Hys, preds, m, n, d)
      case Err(e) => Err(e)
      case Ok(o) => Ok(Linearization(o.H, o.y, ObservedInnovation(S, o.sIdx, d.obs), d.obs * |o.sIdx|))
  }

  /** The number of iterations: one for the EKF, the configured number for
      the IKF. */
  function Iterations(opts: Options): nat
  {
    if opts.kfMethod == EKFNaive then 1 else opts.ikfIterations
  }

  /** The full (EKF / IKF) update. Nothing happens without an observed known
      landmark, or with zero iterations; the gain is computed from the
      covariance before the update, which changes only on the last
      iteration. */
  function FullUpdate(x: Vector, P: Matrix, Z: seq<Vector>, da: seq<int>, S: seq<seq<Matrix>>, idxs: seq<nat>, Hxs: seq<Matrix>, Hys: seq<Matrix>, preds: seq<Vector>, m: UserModel, opts: Options, d: Dims): (r: Result<(Vector, Matrix)>)
    requires UpdateReady(|x|, P, Z, da, S, idxs, Hxs, Hys, preds, m, d)
    ensures r.Ok? ==> |r.value.0| == |x| && IsMatrix(r.value.1, |x|, |x|)
  {
    var nUpd := if d.feat == 0 then 1 else |Kept(da)|;
    var nIter := Iterations(opts);
    if nUpd == 0 || nIter == 0 then Ok((x, P))
    else
      match Linearize(|x|, P, Z, da, S, idxs, Hxs, Hys, preds, m, d)
      case Err(e) => Err(e)
      case Ok(L) =>
        var K := Gain(P, L.H, L.So, m, |x|, L.rows);
        Ok((UpdatedMean(x, K, L.H, L.y, L.rows, nIter), UpdatedCovariance(P, K, L.H, |x|, L.rows)))
  }

  /** Without an association to a landmark of the map, or with no
      iteration, the full update of a filter with landmarks changes
      nothing. */
  lemma FullUpdateSkips(x: Vector, P: Matrix, Z: seq<Vector>, da: seq<int>, S: seq<seq<Matrix>>, idxs: seq<nat>, Hxs: seq<Matrix>, Hys: seq<Matrix>, preds: seq<Vector>, m: UserModel, opts: Options, d: Dims)
    requires UpdateReady(|x|, P, Z, da, S, idxs, Hxs, Hys, preds, m, d) && d.feat > 0
    requires Known(da) == 0 || Iterations(opts) == 0
    ensures FullUpdate(x, P, Z, da, S, idxs, Hxs, Hys, preds, m, opts, d) == Ok((x, P))
  {
    KeptCountsKnown(da);
  }

  // ---------------------------------------------------------------------
  // Scalar updates "a la Davison"

  /** `R` has no correlated components. */
  predicate Diagonal(R: Matrix, o: nat)
  {
    forall a, b :: 0 <= a < o && 0 <= b < o && a != b ==> At(R, a, b) == 0.0
  }

  /** The variance of component `j` of the observation of the landmark at
      `off`: `R(j,j) + term1 + 2 term2 + term3`, each term accumulated over
      one block of `P` as the filter does. */
  function ScalarVariance(P: Matrix, Hx: Matrix, Hy: Matrix, R: Matrix, j: nat, off: nat, d: Dims): real
  {
    var v, f := d.veh, d.feat;
    At(R, j, j)
      + Sum(v, Nested(Hx, Block(P, 0, 0, v, v), Hx, j, j, v))
      + 2.0 * Sum(v, Nested(Hy, Block(P, off, 0, f, v), Hx, j, j, f))
      + Sum(f, Nested(Hy, Block(P, off, off, f, f), Hy, j, j, f))
  }

  /** The scalar variance is the j-th diagonal entry of the innovation block
      `Sii + R` of the landmark: the two cross terms of `Sii` are equal for a
      symmetric `P`, hence the factor 2. */
  lemma ScalarVarianceIsInnovationDiagonal(P: Matrix, n: nat, Hx: Matrix, Hy: Matrix, R: Matrix, l: nat, j: nat, d: Dims)
    requires IsMatrix(P, n, n) && Symmetric(P, n) && j < d.obs
    ensures ScalarVariance(P, Hx, Hy, R, j, Offset(d, l), d)
         == At(Add(CrossInnovation(P, Hx, Hy, Hx, Hy, l, l, d), R, d.obs, d.obs), j, j)
  {
    var v, o, f := d.veh, d.obs, d.feat;
    var off := Offset(d, l);
    TripleAsNested(Hx, Block(P, 0, 0, v, v), Hx, o, v, v, o, j, j);
    TripleAsNested(Hy, Block(P, off, 0, f, v), Hx, o, f, v, o, j, j);
    TripleAsNested(Hy, Block(P, off, off, f, f), Hy, o, f, f, o, j, j);
    TripleTranspose(Hx, Block(P, 0, off, v, f), Hy, o, v, f, o, j, j);
    BlockTranspose(P, n, 0, off, v, f);
  }

  /** The summands of the numerator of gain entry `k`. */
  function VehicleGainTerms(P: Matrix, Hx: Matrix, j: nat, k: nat): nat -> real
  {
    (q: nat) => At(P, k, q) * At(Hx, j, q)
  }

  function LandmarkGainTerms(P: Matrix, Hy: Matrix, j: nat, k: nat, off: nat): nat -> real
  {
    (q: nat) => At(P, k, off + q) * At(Hy, j, q)
  }

  /** The gain of component `j`: `P hⱼᵀ / s`, with `hⱼ` row `j` of the
      observation Jacobian restricted to the vehicle and the landmark. */
  function ScalarGain(P: Matrix, Hx: Matrix, Hy: Matrix, j: nat, off: nat, s: real, n: nat, d: Dims): (K: Vector)
    requires s != 0.0
    ensures |K| == n
  {
    seq(n, k requires 0 <= k => (Sum(d.veh, VehicleGainTerms(P, Hx, j, k)) + Sum(d.feat, LandmarkGainTerms(P, Hy, j, k, off))) / s)
  }

  /** `P - s K Kᵀ` computed on the upper triangle and mirrored below it. */
  function DavisonCovariance(P: Matrix, K: Vector, s: real, n: nat): (P': Matrix)
    ensures IsMatrix(P', n, n)
  {
    seq(n, r => seq(n, c =>
      if r <= c then At(P, r, c) - s * Get(K, r) * Get(K, c)
      else At(P, c, r) - s * Get(K, c) * Get(K, r)))
  }

  /** The scalar update always leaves a symmetric covariance. */
  lemma DavisonCovarianceSymmetric(P: Matrix, K: Vector, s: real, n: nat)
    ensures Symmetric(DavisonCovariance(P, K, s, n), n)
  {
  }

  /** For a symmetric `P` the mirrored update is the full rank-one downdate
      `P - s K Kᵀ`: nothing is lost by computing half of it. */
  lemma DavisonCovarianceIsDowndate(P: Matrix, K: Vector, s: real, n: nat)
    requires IsMatrix(P, n, n) && Symmetric(P, n)
    ensures forall r, c :: 0 <= r < n && 0 <= c < n ==>
      DavisonCovariance(P, K, s, n)[r][c] == P[r][c] - s * Get(K, r) * Get(K, c)
  {
    forall r, c | 0 <= r < n && 0 <= c < n
      ensures DavisonCovariance(P, K, s, n)[r][c] == P[r][c] - s * Get(K, r) * Get(K, c)
    {
      assert At(P, r, c) == At(P, c, r);
    }
  }

  /** Some diagonal entry of `P` is negative. */
  predicate NegativeDiagonal(P: Matrix, n: nat)
  {
    exists k :: 0 <= k < n && At(P, k, k) < 0.0
  }

  /** The update with component `j` of the innovation `y` of the landmark at
      `off`. A `_DEBUG` build refuses a correlated `R`; a `_DEBUG` or
      `MRPT_ALWAYS_CHECKS_DEBUG` build refuses a negative variance;
      a zero variance, which the filter would divide by, is an error. */
  function ScalarUpdate(x: Vector, P: Matrix, Hx: Matrix, Hy: Matrix, R: Matrix, j: nat, off: nat, y: Vector, opts: Options, d: Dims): (r: Result<(Vector, Matrix)>)
    ensures r.Ok? ==> |r.value.0| == |x| && IsMatrix(r.value.1, |x|, |x|)
    ensures r.Ok? ==> Symmetric(r.value.1, |x|)
  {
    var n := |x|;
    if opts.debugBuild && !Diagonal(R, d.obs) then Err(DependentNoise)
    else
      var s := ScalarVariance(P, Hx, Hy, R, j, off, d);
      if s == 0.0 then Err(ZeroInnovationVariance)
      else
        var K := ScalarGain(P, Hx, Hy, j, off, s, n, d);
        var P' := DavisonCovariance(P, K, s, n);
        if ChecksDebug(opts) && NegativeDiagonal(P', n) then Err(NegativeVariance)
        else
          DavisonCovarianceSymmetric(P, K, s, n);
          Ok((Gained(x, K, Get(y, j)), P'))
  }

  /** The mean moved by the gain `K` times one innovation component `yj`. */
  function Gained(x: Vector, K: Vector, yj: real): (x': Vector)
    requires |K| == |x|
    ensures |x'| == |x|
  {
    seq(|x|, k requires 0 <= k < |x| => x[k] + K[k] * yj)
  }

  /** The first `j` scalar updates of one observation. */
  function ScalarUpdates(x: Vector, P: Matrix, Hx: Matrix, Hy: Matrix, R: Matrix, off: nat, y: Vector, j: nat, opts: Options, d: Dims): (r: Result<(Vector, Matrix)>)
    ensures r.Ok? ==> |r.value.0| == |x|
    ensures r.Ok? && j > 0 ==> IsMatrix(r.value.1, |x|, |x|) && Symmetric(r.value.1, |x|)
    ensures r.Ok? && IsMatrix(P, |x|, |x|) ==> IsMatrix(r.value.1, |x|, |x|)
  {
    if j == 0 then Ok((x, P))
    else
      match ScalarUpdates(x, P, Hx, Hy, R, off, y, j - 1, opts, d)
      case Err(e) => Err(e)
      case Ok(st) => ScalarUpdate(st.0, st.1, Hx, Hy, R, j - 1, off, y, opts, d)
  }

  /** A failed scalar update ends the observation's updates with its
      error. */
  lemma {:induction false} ScalarUpdatesStop(x: Vector, P: Matrix, Hx: Matrix, Hy: Matrix, R: Matrix, off: nat, y: Vector, j: nat, k: nat, opts: Options, d: Dims)
    requires j <= k && ScalarUpdates(x, P, Hx, Hy, R, off, y, j, opts, d).Err?
    ensures ScalarUpdates(x, P, Hx, Hy, R, off, y, k, opts, d) == ScalarUpdates(x, P, Hx, Hy, R, off, y, j, opts, d)
    decreases k
  {
    if j < k {
      ScalarUpdatesStop(x, P, Hx, Hy, R, off, y, j, k - 1, opts, d);
    }
  }

  /** The landmark the i-th observation updates, if any: every observation
      of a filter without associations (the whole system), otherwise the
      associated landmark of an observation with an association of 0 or more. */
  function UpdatedLandmark(da: seq<int>, i: nat): Option<nat>
  {
    if |da| == 0 then Some(0)
    else if i < |da| && da[i] >= 0 then Some(da[i] as nat)
    else None
  }

  /** The scalar updates of observation `i`: the innovation against the
      prediction at the current mean, the Jacobians of the landmark's place
      in the prediction list. */
  function DavisonObservation(x: Vector, P: Matrix, Z: seq<Vector>, da: seq<int>, i: nat, idxs: seq<nat>, Hxs: seq<Matrix>, Hys: seq<Matrix>, R: Matrix, m: UserModel, opts: Options, d: Dims): (r: Result<(Vector, Matrix)>)
    requires i < |Z| && |Hxs| == |Hys| == |idxs|
    ensures r.Ok? ==> |r.value.0| == |x|
    ensures r.Ok? && IsMatrix(P, |x|, |x|) ==> IsMatrix(r.value.1, |x|, |x|)
  {
    match UpdatedLandmark(da, i)
    case None => Ok((x, P))
    case Some(l) =>
      var y := m.subtract(Z[i], Single(m.observe(x, [l])));
      match Find(idxs, l)
      case None => Err(LandmarkNotPredicted)
      case Some(p) => ScalarUpdates(x, P, Hxs[p], Hys[p], R, Offset(d, l), y, d.obs, opts, d)
  }

  /** The scalar updates of the first `k` observations. */
  function DavisonUpTo(k: nat, x: Vector, P: Matrix, Z: seq<Vector>, da: seq<int>, idxs: seq<nat>, Hxs: seq<Matrix>, Hys: seq<Matrix>, R: Matrix, m: UserModel, opts: Options, d: Dims): (r: Result<(Vector, Matrix)>)
    requires k <= |Z| && |Hxs| == |Hys| == |idxs|
    ensures r.Ok? ==> |r.value.0| == |x|
    ensures r.Ok? && IsMatrix(P, |x|, |x|) ==> IsMatrix(r.value.1, |x|, |x|)
  {
    if k == 0 then Ok((x, P))
    else
      match DavisonUpTo(k - 1, x, P, Z, da, idxs, Hxs, Hys, R, m, opts, d)
      case Err(e) => Err(e)
      case Ok(st) => DavisonObservation(st.0, st.1, Z, da, k - 1, idxs, Hxs, Hys, R, m, opts, d)
  }

  /** A failed observation ends the scalar updates with its error. */
  lemma {:induction false} DavisonUpToStops(j: nat, k: nat, x: Vector, P: Matrix, Z: seq<Vector>, da: seq<int>, idxs: seq<nat>, Hxs: seq<Matrix>, Hys: seq<Matrix>, R: Matrix, m: UserModel, opts: Options, d: Dims)
    requires j <= k <= |Z| && |Hxs| == |Hys| == |idxs|
    requires DavisonUpTo(j, x, P, Z, da, idxs, Hxs, Hys, R, m, opts, d).Err?
    ensures DavisonUpTo(k, x, P, Z, da, idxs, Hxs, Hys, R, m, opts, d) == DavisonUpTo(j, x, P, Z, da, idxs, Hxs, Hys, R, m, opts, d)
    decreases k
  {
    if j < k {
      DavisonUpToStops(j, k - 1, x, P, Z, da, idxs, Hxs, Hys, R, m, opts, d);
    }
  }

  /** The scalar updates keep a symmetric covariance symmetric and square. */
  lemma {:induction false} DavisonKeepsSymmetry(k: nat, x: Vector, P: Matrix, Z: seq<Vector>, da: seq<int>, idxs: seq<nat>, Hxs: seq<Matrix>, Hys: seq<Matrix>, R: Matrix, m: UserModel, opts: Options, d: Dims)
    requires k <= |Z| && |Hxs| == |Hys| == |idxs|
    requires IsMatrix(P, |x|, |x|) && Symmetric(P, |x|)
    ensures DavisonUpTo(k, x, P, Z, da, idxs, Hxs, Hys, R, m, opts, d).Ok? ==>
      var P' := DavisonUpTo(k, x, P, Z, da, idxs, Hxs, Hys, R, m, opts, d).value.1;
      IsMatrix(P', |x|, |x|) && Symmetric(P', |x|)
  {
    if k > 0 {
      DavisonKeepsSymmetry(k - 1, x, P, Z, da, idxs, Hxs, Hys, R, m, opts, d);
    }
  }

  // ---------------------------------------------------------------------
  // The update stage

  /** The update stage: nothing without observations, else the configured
      method; the scalar IKF and unknown methods are errors. */
  function UpdateStage(x: Vector, P: Matrix, Z: seq<Vector>, da: seq<int>, S: seq<seq<Matrix>>, idxs: seq<nat>, Hxs: seq<Matrix>, Hys: seq<Matrix>, preds: seq<Vector>, R: Matrix, m: UserModel, opts: Options, d: Dims): (r: Result<(Vector, Matrix)>)
    requires UpdateReady(|x|, P, Z, da, S, idxs, Hxs, Hys, preds, m, d)
    ensures r.Ok? ==> |r.value.0| == |x|
    ensures r.Err? ==> opts.kfMethod != EKFNaive && opts.kfMethod != IKFFull && opts.kfMethod != EKFAlaDavison ==> r.error == if opts.kfMethod == IKF then ScalarIKFNotImplemented else InvalidMethod
  {
    if |Z| == 0 then Ok((x, P))
    else
      match opts.kfMethod
      case EKFNaive => FullUpdate(x, P, Z, da, S, idxs, Hxs, Hys, preds, m, opts, d)
      case IKFFull => FullUpdate(x, P, Z, da, S, idxs, Hxs, Hys, preds, m, opts, d)
      case EKFAlaDavison => DavisonUpTo(|Z|, x, P, Z, da, idxs, Hxs, Hys, R, m, opts, d)
      case IKF => Err(ScalarIKFNotImplemented)
      case Unknown => Err(InvalidMethod)
  }

  /** The update stage keeps the covariance square, and symmetric after the
      scalar updates of a symmetric one. */
  lemma UpdateStageShape(x: Vector, P: Matrix, Z: seq<Vector>, da: seq<int>, S: seq<seq<Matrix>>, idxs: seq<nat>, Hxs: seq<Matrix>, Hys: seq<Matrix>, preds: seq<Vector>, R: Matrix, m: UserModel, opts: Options, d: Dims)
    requires UpdateReady(|x|, P, Z, da, S, idxs, Hxs, Hys, preds, m, d)
    ensures var r := UpdateStage(x, P, Z, da, S, idxs, Hxs, Hys, preds, R, m, opts, d);
      r.Ok? ==> IsMatrix(r.value.1, |x|, |x|)
    ensures var r := UpdateStage(x, P, Z, da, S, idxs, Hxs, Hys, preds, R, m, opts, d);
      r.Ok? && opts.kfMethod == EKFAlaDavison && Symmetric(P, |x|) ==> Symmetric(r.value.1, |x|)
  {
    if |Z| > 0 && opts.kfMethod == EKFAlaDavison && Symmetric(P, |x|) {
      DavisonKeepsSymmetry(|Z|, x, P, Z, da, idxs, Hxs, Hys, R, m, opts, d);
    }
  }
}
