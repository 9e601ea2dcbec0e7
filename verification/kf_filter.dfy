/** The Kalman filter engine (`CKalmanFilterCapable`): the filter's state
    and the scratch lists it keeps between the stages of one cycle, updated
    in place stage by stage, each stage proved against its specification
    function. */
module KalmanFilter {
  import opened Matrices
  import opened KalmanTypes
  import opened KalmanPrediction
  import opened KalmanJacobians
  import opened KalmanInnovation
  import opened KalmanUpdate
  import opened KalmanLandmarks
  import opened Counting

  /** The number of values of `size_t`, where the landmark count wraps. */
  const SizeT: int := 0x1_0000_0000_0000_0000

  /** The prediction stage: the new vehicle state from the transition model
      and the covariance `F P Fᵀ + Q` on the vehicle block, `F` times the
      vehicle rows of the first `nMap` landmarks; nothing at all when the
      model asks to skip the prediction. */
  function Prediction(m: UserModel, opts: Options, d: Dims, x: Vector, P: Matrix, nMap: nat): (r: Result<(Vector, Matrix)>)
    requires WellFormed(m, d) && d.veh <= |x|
  {
    var u := m.action;
    var (xv, skip) := m.transition(u, x[..d.veh]);
    if skip then Ok((x, P))
    else
      match TransitionJacobian(m, opts, d, u, x[..d.veh])
      case Err(e) => Err(e)
      case Ok(F) =>
        Ok((m.normalize(xv + x[d.veh..]), PredictedCovariance(P, F, m.transitionNoise, d.veh, d.veh + nMap * d.feat, |x|)))
  }

  /** The prediction keeps the sizes, keeps the covariance symmetric (the
      process noise of a well-formed model being symmetric), and changes no
      entry between two landmarks. */
  lemma PredictionFacts(m: UserModel, opts: Options, d: Dims, x: Vector, P: Matrix, nMap: nat)
    requires WellFormed(m, d) && d.veh <= |x| && IsMatrix(P, |x|, |x|)
    ensures var r := Prediction(m, opts, d, x, P, nMap);
      r.Ok? ==> |r.value.0| == |x| && IsMatrix(r.value.1, |x|, |x|)
    ensures var r := Prediction(m, opts, d, x, P, nMap);
      r.Ok? && Symmetric(P, |x|) && Symmetric(m.transitionNoise, d.veh) ==> Symmetric(r.value.1, |x|)
    ensures var r := Prediction(m, opts, d, x, P, nMap);
      r.Ok? ==> forall a, b :: d.veh <= a < |x| && d.veh <= b < |x| ==> r.value.1[a][b] == P[a][b]
  {
    var r := Prediction(m, opts, d, x, P, nMap);
    var u := m.action;
    if r.Ok? && !m.transition(u, x[..d.veh]).1 {
      var J := TransitionJacobian(m, opts, d, u, x[..d.veh]);
      var reach := d.veh + nMap * d.feat;
      assert J.Ok? && r.value.1 == PredictedCovariance(P, J.value, m.transitionNoise, d.veh, reach, |x|);
      if Symmetric(P, |x|) && Symmetric(m.transitionNoise, d.veh) {
        PredictionKeepsSymmetry(P, J.value, m.transitionNoise, d.veh, reach, |x|);
      }
    }
  }

  /** The difference quotients, over twice the increment `h`, of the
      observations up and down. */
  function HalvedDifference(plus: Vector, minus: Vector, h: real, rows: nat): (col: Vector)
    requires h != 0.0
    ensures |col| == rows
  {
    seq(rows, r requires 0 <= r => (0.5 / h) * (Get(plus, r) - Get(minus, r)))
  }

  /** The quotients of the observations up and down along input `c` are
      column `c` of the estimate. */
  lemma ColumnOfDifferences(f: Vector -> Vector, xs: Vector, incr: Vector, c: nat, h: real, rows: nat, plus: Vector, minus: Vector)
    requires c < |xs| == |incr| && Positive(incr) && h == incr[c]
    requires plus == Sample(f, Perturbed(xs, c, h)) && minus == Sample(f, Perturbed(xs, c, -h))
    ensures HalvedDifference(plus, minus, h, rows) == DifferenceColumn(f, xs, incr, rows, c)
  {
    var col := HalvedDifference(plus, minus, h, rows);
    forall r | 0 <= r < rows
      ensures col[r] == CentralDifference(f, xs, incr, r, c)
    {
    }
  }

  /** The `rows`-by-|cols| matrix whose column `c` is `cols[c]`. */
  function FromColumns(cols: seq<Vector>, rows: nat): (J: Matrix)
    requires forall c :: 0 <= c < |cols| ==> |cols[c]| == rows
    ensures IsMatrix(J, rows, |cols|)
    ensures forall r, c :: 0 <= r < rows && 0 <= c < |cols| ==> J[r][c] == cols[c][r]
  {
    seq(rows, r requires 0 <= r < rows => seq(|cols|, c requires 0 <= c < |cols| => cols[c][r]))
  }

  /** `cols` are the first difference columns of the estimate. */
  predicate EstimatedColumns(f: Vector -> Vector, xs: Vector, incr: Vector, rows: nat, cols: seq<Vector>)
  {
    && |cols| <= |xs| == |incr| && Positive(incr)
    && forall c :: 0 <= c < |cols| ==> cols[c] == DifferenceColumn(f, xs, incr, rows, c) && |cols[c]| == rows
  }

  /** The next difference column extends them. */
  lemma NextColumn(f: Vector -> Vector, xs: Vector, incr: Vector, rows: nat, cols: seq<Vector>, col: Vector)
    requires EstimatedColumns(f, xs, incr, rows, cols) && |cols| < |xs|
    requires col == DifferenceColumn(f, xs, incr, rows, |cols|)
    ensures EstimatedColumns(f, xs, incr, rows, cols + [col])
  {
    var cols' := cols + [col];
    forall c | 0 <= c < |cols'|
      ensures cols'[c] == DifferenceColumn(f, xs, incr, rows, c) && |cols'[c]| == rows
    {
      if c < |cols| {
        assert cols'[c] == cols[c];
      }
    }
  }

  /** The difference columns, side by side, are the estimate. */
  lemma ColumnsOfEstimate(f: Vector -> Vector, xs: Vector, incr: Vector, rows: nat, cols: seq<Vector>)
    requires EstimatedColumns(f, xs, incr, rows, cols) && |cols| == |xs|
    ensures FromColumns(cols, rows) == NumericJacobian(f, xs, incr, rows)
  {
    var J := FromColumns(cols, rows);
    forall r, c | 0 <= r < rows && 0 <= c < |cols|
      ensures J[r][c] == CentralDifference(f, xs, incr, r, c)
    {
      assert J[r][c] == cols[c][r] == DifferenceColumn(f, xs, incr, rows, c)[r];
    }
    MatrixExt(J, NumericJacobian(f, xs, incr, rows), rows, |cols|);
  }

  /** The downdate of `P0` into `D` done on rows and columns before `k`,
      and on row and column `k` before `q`. */
  ghost predicate PartlyDowndated(P: Matrix, P0: Matrix, D: Matrix, n: nat, k: nat, q: nat)
  {
    && IsMatrix(P, n, n) && IsMatrix(P0, n, n) && IsMatrix(D, n, n)
    && forall a, b :: 0 <= a < n && 0 <= b < n ==>
      P[a][b] == if a < k || b < k || (a == k && b < q) || (b == k && a < q) then D[a][b] else P0[a][b]
  }

  /** Row and column `k` done, the next ones start. */
  lemma NextDowndatedRow(P: Matrix, P0: Matrix, D: Matrix, n: nat, k: nat)
    requires PartlyDowndated(P, P0, D, n, k, n)
    ensures PartlyDowndated(P, P0, D, n, k + 1, k + 1)
  {
  }

  /** A slice written over `x0` leaves the rest of `x0` as it was. */
  lemma Splice(x0: Vector, v: Vector, at: nat)
    requires at + |v| <= |x0|
    ensures var y := x0[..at] + v + x0[at + |v|..];
      |y| == |x0| && y[..at] == x0[..at] && y[at + |v|..] == x0[at + |v|..] && y[at..at + |v|] == v
  {
    var y := x0[..at] + v + x0[at + |v|..];
    assert y[..at] == x0[..at];
    assert y[at + |v|..] == x0[at + |v|..];
    assert y[at..at + |v|] == v;
  }

  /** Copying the saved slice back restores a state that only differed
      from `x0` there. */
  lemma Restore(x0: Vector, y: Vector, at: nat, len: nat)
    requires at + len <= |x0| == |y|
    requires y[..at] == x0[..at] && y[at + len..] == x0[at + len..]
    ensures y[..at] + x0[at..at + len] + y[at + len..] == x0
  {
    assert x0 == x0[..at] + x0[at..at + len] + x0[at + len..];
  }

  /** The landmark the i-th prediction is of: the whole system (0) in a
      filter without landmarks. */
  function LandmarkOf(idxs: seq<nat>, i: nat, d: Dims): nat
    requires i < |idxs|
  {
    if d.feat == 0 then 0 else idxs[i]
  }

  /** The landmarks of a map of `n`: 0, 1, ..., n - 1. */
  function MapLandmarks(n: nat): (r: seq<nat>)
    ensures |r| == n && forall i :: 0 <= i < n ==> r[i] == i
  {
    seq(n, i => i)
  }

  /** Every landmark of the prediction list lies inside the state. */
  ghost predicate Fits(x: Vector, idxs: seq<nat>, d: Dims)
  {
    forall i :: 0 <= i < |idxs| ==> Offset(d, LandmarkOf(idxs, i, d)) + d.feat <= |x|
  }

  /** A list of landmarks below `nMap` fits a state that holds `nMap`. */
  lemma FitsBelow(x: Vector, idxs: seq<nat>, d: Dims, nMap: nat)
    requires d.veh <= |x| && Offset(d, nMap) <= |x|
    requires d.feat > 0 ==> forall l :: l in idxs ==> l < nMap
    ensures Fits(x, idxs, d)
  {
    forall i | 0 <= i < |idxs|
      ensures Offset(d, LandmarkOf(idxs, i, d)) + d.feat <= |x|
    {
      if d.feat > 0 {
        assert idxs[i] in idxs;
        OffsetMono(d, idxs[i], nMap);
      }
    }
  }

  /** The first `k` Jacobians are those of their landmarks at `x`. */
  ghost predicate JacobiansMatch(m: UserModel, opts: Options, d: Dims, x: Vector, idxs: seq<nat>, Hxs: seq<Matrix>, Hys: seq<Matrix>, k: nat)
  {
    && ObservationEstimable(m, d) && Fits(x, idxs, d) && |Hxs| == |Hys| == k <= |idxs|
    && forall i :: 0 <= i < k ==> ObservationJacobians(m, opts, d, x, LandmarkOf(idxs, i, d)) == Ok((Hxs[i], Hys[i]))
  }

  /** Appending to the prediction list keeps the Jacobians already built. */
  lemma JacobiansMatchGrow(m: UserModel, opts: Options, d: Dims, x: Vector, idxs: seq<nat>, extra: seq<nat>, Hxs: seq<Matrix>, Hys: seq<Matrix>, k: nat)
    requires JacobiansMatch(m, opts, d, x, idxs, Hxs, Hys, k) && Fits(x, idxs + extra, d)
    ensures JacobiansMatch(m, opts, d, x, idxs + extra, Hxs, Hys, k)
  {
    forall i | 0 <= i < k
      ensures LandmarkOf(idxs + extra, i, d) == LandmarkOf(idxs, i, d)
    {
    }
  }

  /** A covariance of size `n` part-way through growing by one landmark
      into `G`: resized to `N`, the old entries kept, and the new rows
      written up to old column `a`, the new columns up to old row `b`. */
  ghost predicate Growing(P: Matrix, P0: Matrix, G: Matrix, n: nat, N: nat, a: nat, b: nat)
  {
    && IsMatrix(P, N, N) && IsMatrix(P0, n, n) && IsMatrix(G, N, N) && a <= n && b <= n <= N
    && (forall r, c :: 0 <= r < n && 0 <= c < n ==> P[r][c] == P0[r][c])
    && (forall r, c :: n <= r < N && 0 <= c < a ==> P[r][c] == G[r][c])
    && (forall r, c :: 0 <= r < b && n <= c < N ==> P[r][c] == G[r][c])
  }

  /** Growth up to the same old row and column. */
  ghost predicate GrowingTo(P: Matrix, P0: Matrix, G: Matrix, n: nat, N: nat, upto: nat)
  {
    Growing(P, P0, G, n, N, upto, upto)
  }

  /** The new landmark's rows and columns of `G`, grown from `P0` of size
      `n`: `dyn_dxv` times the vehicle rows of each old column, and the
      transposes. */
  ghost predicate CrossTerms(G: Matrix, P0: Matrix, dynDxv: Matrix, n: nat, d: Dims)
  {
    && IsMatrix(G, n + d.feat, n + d.feat)
    && (forall r, c :: n <= r < n + d.feat && 0 <= c < n ==> G[r][c] == Sum(d.veh, Prod(dynDxv, P0, r - n, c)))
    && (forall r, c :: 0 <= r < n && n <= c < n + d.feat ==> G[r][c] == Sum(d.veh, Prod(dynDxv, P0, c - n, r)))
  }

  /** The block `dyn_dxv P_x,y` read from a covariance part-way through
      growing holds the entries of the grown one. */
  lemma CrossEntries(P: Matrix, P0: Matrix, G: Matrix, dynDxv: Matrix, n: nat, off: nat, w: nat, d: Dims)
    requires GrowingTo(P, P0, G, n, n + d.feat, off) && d.veh <= n && off + w <= n
    requires IsMatrix(dynDxv, d.feat, d.veh) && CrossTerms(G, P0, dynDxv, n, d)
    ensures var Pcross := Mul(dynDxv, Block(P, 0, off, d.veh, w), d.feat, d.veh, w);
      forall i, j :: 0 <= i < d.feat && 0 <= j < w ==> Pcross[i][j] == G[n + i][off + j] == G[off + j][n + i]
  {
    var Pxy := Block(P, 0, off, d.veh, w);
    var Pcross := Mul(dynDxv, Pxy, d.feat, d.veh, w);
    forall i, j | 0 <= i < d.feat && 0 <= j < w
      ensures Pcross[i][j] == G[n + i][off + j] == G[off + j][n + i]
    {
      SumExt(d.veh, Prod(dynDxv, Pxy, i, j), Prod(dynDxv, P0, i, off + j));
    }
  }

  /** Writing those entries extends the new rows by `w` columns. */
  lemma CrossRowsWritten(P: Matrix, P0: Matrix, G: Matrix, Pcross: Matrix, n: nat, off: nat, w: nat, d: Dims)
    requires Growing(P, P0, G, n, n + d.feat, off, off) && off + w <= n && IsMatrix(Pcross, d.feat, w)
    requires forall i, j :: 0 <= i < d.feat && 0 <= j < w ==> Pcross[i][j] == G[n + i][off + j]
    ensures Growing(WriteBlock(P, n, off, Pcross, d.feat, w), P0, G, n, n + d.feat, off + w, off)
  {
    var N := n + d.feat;
    var P1 := WriteBlock(P, n, off, Pcross, d.feat, w);
    assert IsMatrix(P1, N, N);
    forall r, c | 0 <= r < n && 0 <= c < n
      ensures P1[r][c] == P0[r][c]
    {
      assert P1[r][c] == P[r][c];
    }
    forall r, c | n <= r < N && 0 <= c < off + w
      ensures P1[r][c] == G[r][c]
    {
      if c >= off {
        assert P1[r][c] == At(Pcross, r - n, c - off);
      } else {
        assert P1[r][c] == P[r][c];
      }
    }
    forall r, c | 0 <= r < off && n <= c < N
      ensures P1[r][c] == G[r][c]
    {
      assert P1[r][c] == P[r][c];
    }
  }

  /** Writing their transposes extends the new columns by `w` rows. */
  lemma CrossColumnsWritten(P: Matrix, P0: Matrix, G: Matrix, Pcross: Matrix, n: nat, off: nat, w: nat, d: Dims)
    requires Growing(P, P0, G, n, n + d.feat, off + w, off) && IsMatrix(Pcross, d.feat, w)
    requires forall i, j :: 0 <= i < d.feat && 0 <= j < w ==> Pcross[i][j] == G[off + j][n + i]
    ensures Growing(WriteBlock(P, off, n, Transpose(Pcross, d.feat, w), w, d.feat), P0, G, n, n + d.feat, off + w, off + w)
  {
    var N := n + d.feat;
    var T := Transpose(Pcross, d.feat, w);
    var P2 := WriteBlock(P, off, n, T, w, d.feat);
    assert IsMatrix(P2, N, N);
    forall r, c | 0 <= r < n && 0 <= c < n
      ensures P2[r][c] == P0[r][c]
    {
      assert P2[r][c] == P[r][c];
    }
    forall r, c | n <= r < N && 0 <= c < off + w
      ensures P2[r][c] == G[r][c]
    {
      assert P2[r][c] == P[r][c];
    }
    forall r, c | 0 <= r < off + w && n <= c < N
      ensures P2[r][c] == G[r][c]
    {
      if r >= off {
        assert P2[r][c] == At(T, r - off, c - n) == T[r - off][c - n];
        assert T[r - off][c - n] == Pcross[c - n][r - off];
      } else {
        assert P2[r][c] == P[r][c];
      }
    }
  }

  /** The grown covariance has the cross terms `CrossTerms` describes, and
      growth starts from the resized covariance with nothing new written. */
  lemma GrowthStarts(P0: Matrix, inv: InverseObservation, R: Matrix, d: Dims, n: nat)
    requires IsMatrix(P0, n, n)
    ensures CrossTerms(GrownCovariance(P0, inv, R, d, n), P0, inv.dynDxv, n, d)
    ensures GrowingTo(Resized(P0, n, n + d.feat), P0, GrownCovariance(P0, inv, R, d, n), n, n + d.feat, 0)
  {
  }

  /** Once every old column is done, writing the new landmark's own block
      completes the growth. */
  lemma GrowthEnds(P: Matrix, P0: Matrix, inv: InverseObservation, R: Matrix, d: Dims, n: nat)
    requires GrowingTo(P, P0, GrownCovariance(P0, inv, R, d, n), n, n + d.feat, n)
    ensures WriteBlock(P, n, n, NewLandmarkCovariance(P0, inv, R, d), d.feat, d.feat) == GrownCovariance(P0, inv, R, d, n)
  {
    var N := n + d.feat;
    var G := GrownCovariance(P0, inv, R, d, n);
    var Pnn := NewLandmarkCovariance(P0, inv, R, d);
    var P' := WriteBlock(P, n, n, Pnn, d.feat, d.feat);
    forall r, c | 0 <= r < N && 0 <= c < N
      ensures P'[r][c] == G[r][c]
    {
      if n <= r && n <= c {
        assert P'[r][c] == At(Pnn, r - n, c - n);
      } else {
        assert P'[r][c] == P[r][c];
      }
    }
    MatrixExt(P', G, N, N);
  }

  /** A state of `c` whole landmarks has a landmark part divisible by the
      landmark size, `c` times it. */
  lemma WholeLandmarks(d: Dims, c: nat)
    requires d.feat > 0
    ensures (Offset(d, c) - d.veh) % d.feat == 0 && (Offset(d, c) - d.veh) / d.feat == c
  {
    OffsetIsProduct(d, c);
    DivOfMultiple(c, d.feat);
  }

  /** `a` landmarks and then `b` more take the room of `a + b`. */
  lemma {:induction false} OffsetAdd(d: Dims, a: nat, b: nat)
    ensures Offset(d, a) + Offset(d, b) == Offset(d, a + b) + d.veh
  {
    if b > 0 {
      OffsetAdd(d, a, b - 1);
    }
  }

  /** Stages 7 to 9 once the observations are associated: the update by
      the configured method, the user's normalisation, and the landmarks of
      the observations without an association when there are associations. */
  function FinishIteration(x: Vector, P: Matrix, Z: seq<Vector>, da: seq<int>, S: seq<seq<Matrix>>, idxs: seq<nat>, Hxs: seq<Matrix>, Hys: seq<Matrix>, preds: seq<Vector>, R: Matrix, m: UserModel, opts: Options, d: Dims): (r: Result<(Vector, Matrix)>)
    requires UpdateReady(|x|, P, Z, da, S, idxs, Hxs, Hys, preds, m, d)
  {
    match UpdateStage(x, P, Z, da, S, idxs, Hxs, Hys, preds, R, m, opts, d)
    case Err(e) => Err(e)
    case Ok((x1, P1)) =>
      var xn := m.normalize(x1);
      if |da| == 0 then Ok((xn, P1)) else Ok(WithNewLandmarks(xn, P1, Z, da, R, m, d))
  }

  /** Landmarks are only ever added, whole: the state grows by one landmark
      per observation without an association, and the covariance with it. */
  lemma FinishIterationGrows(x: Vector, P: Matrix, Z: seq<Vector>, da: seq<int>, S: seq<seq<Matrix>>, idxs: seq<nat>, Hxs: seq<Matrix>, Hys: seq<Matrix>, preds: seq<Vector>, R: Matrix, m: UserModel, opts: Options, d: Dims, c: nat)
    requires UpdateReady(|x|, P, Z, da, S, idxs, Hxs, Hys, preds, m, d)
    ensures var r := FinishIteration(x, P, Z, da, S, idxs, Hxs, Hys, preds, R, m, opts, d);
      r.Ok? ==> |r.value.0| + d.veh == |x| + Offset(d, NewCount(da)) && IsMatrix(r.value.1, |r.value.0|, |r.value.0|)
    ensures var r := FinishIteration(x, P, Z, da, S, idxs, Hxs, Hys, preds, R, m, opts, d);
      r.Ok? && |x| == Offset(d, c) ==> |r.value.0| == Offset(d, c + NewCount(da))
  {
    var r := FinishIteration(x, P, Z, da, S, idxs, Hxs, Hys, preds, R, m, opts, d);
    var u := UpdateStage(x, P, Z, da, S, idxs, Hxs, Hys, preds, R, m, opts, d);
    UpdateStageShape(x, P, Z, da, S, idxs, Hxs, Hys, preds, R, m, opts, d);
    if r.Ok? {
      var xn := m.normalize(u.value.0);
      assert |xn| == |x| && IsMatrix(u.value.1, |xn|, |xn|);
      if |da| == 0 {
        assert NewCount(da) == 0;
      }
      OffsetAdd(d, c, NewCount(da));
    }
  }

  /** `I - K H` written over the product `K H`, entry by entry, as the full
      update does before multiplying by `P`. */
  method IdentityMinus(KH: Matrix, n: nat) returns (A: Matrix)
    requires IsMatrix(KH, n, n)
    ensures A == Sub(Identity(n), KH, n, n)
  {
    A := KH;
    for r := 0 to n
      invariant IsMatrix(A, n, n)
      invariant forall i, j :: 0 <= i < r && 0 <= j < n ==> A[i][j] == At(Identity(n), i, j) - KH[i][j]
      invariant forall i, j :: r <= i < n && 0 <= j < n ==> A[i][j] == KH[i][j]
    {
      for c := 0 to n
        invariant IsMatrix(A, n, n)
        invariant forall i, j :: 0 <= i < r && 0 <= j < n ==> A[i][j] == At(Identity(n), i, j) - KH[i][j]
        invariant forall i, j :: r < i < n && 0 <= j < n ==> A[i][j] == KH[i][j]
        invariant forall j :: 0 <= j < c ==> A[r][j] == At(Identity(n), r, j) - KH[r][j]
        invariant forall j :: c <= j < n ==> A[r][j] == KH[r][j]
      {
        if r == c {
          A := A[r := A[r][c := -A[r][c] + 1.0]];
        } else {
          A := A[r := A[r][c := -A[r][c]]];
        }
      }
    }
    MatrixExt(A, Sub(Identity(n), KH, n, n), n, n);
  }

  /** Row `i` of the innovation grid done up to column `j`: the rows and
      columns before `i` complete, the blocks of row `i` from the diagonal to
      `j` and their mirrors in column `i` written, the diagonal block still
      without `R`. */
  ghost predicate RowMirrored(T: seq<seq<Matrix>>, P: Matrix, Hxs: seq<Matrix>, Hys: seq<Matrix>, idxs: seq<nat>, R: Matrix, d: Dims, i: nat, j: nat)
  {
    && |Hxs| == |Hys| == |idxs| && i < |idxs| && i <= j <= |idxs|
    && |T| == |idxs| && (forall a :: 0 <= a < |T| ==> |T[a]| == |T|)
    && (forall a, b :: 0 <= a < |T| && 0 <= b < |T| && (a < i || b < i) ==> T[a][b] == GridBlock(P, Hxs, Hys, idxs, R, d, a, b))
    && (forall b :: i < b < j ==> T[i][b] == GridBlock(P, Hxs, Hys, idxs, R, d, i, b) && T[b][i] == GridBlock(P, Hxs, Hys, idxs, R, d, b, i))
    && (j > i ==> T[i][i] == BlockOf(P, Hxs, Hys, idxs, d, i, i))
  }

  /** Writing block (i, j) and its mirror extends the row by one column. */
  lemma MirrorStep(T: seq<seq<Matrix>>, P: Matrix, Hxs: seq<Matrix>, Hys: seq<Matrix>, idxs: seq<nat>, R: Matrix, d: Dims, i: nat, j: nat)
    requires RowMirrored(T, P, Hxs, Hys, idxs, R, d, i, j) && j < |idxs|
    ensures var Sij := BlockOf(P, Hxs, Hys, idxs, d, i, j);
      var T1 := T[i := T[i][j := Sij]];
      RowMirrored(if i != j then T1[j := T1[j][i := Transpose(Sij, d.obs, d.obs)]] else T1, P, Hxs, Hys, idxs, R, d, i, j + 1)
  {
  }

  class KalmanFilterCapable {
    /** The template sizes, the user's model, and `KF_options`. */
    const d: Dims
    const m: UserModel
    const opts: Options

    /** `m_xkk`, `m_pkk`: the mean and covariance of the state. */
    var x: Vector
    var P: Matrix
    /** `m_all_predictions`, `m_predictLMidxs`, `m_Hxs`, `m_Hys`, `m_S`,
        `m_Z`: what one cycle computes for the next stages. */
    var allPredictions: seq<Vector>
    var predictLMidxs: seq<nat>
    var Hxs: seq<Matrix>
    var Hys: seq<Matrix>
    var S: seq<seq<Matrix>>
    var Z: seq<Vector>

    /** A well-formed model, and a square covariance. */
    ghost predicate Valid()
      reads this`P
    {
      WellFormed(m, d) && IsMatrix(P, |P|, |P|)
    }

    constructor (d: Dims, m: UserModel, opts: Options, x0: Vector, P0: Matrix)
      requires WellFormed(m, d) && IsMatrix(P0, |P0|, |P0|)
      ensures Valid()
      ensures this.d == d && this.m == m && this.opts == opts && x == x0 && P == P0
      ensures allPredictions == [] && predictLMidxs == [] && Hxs == [] && Hys == [] && S == [] && Z == []
    {
      this.d := d;
      this.m := m;
      this.opts := opts;
      x := x0;
      P := P0;
      allPredictions := [];
      predictLMidxs := [];
      Hxs := [];
      Hys := [];
      S := [];
      Z := [];
    }

    /** `getNumberOfLandmarksInTheMap`: `(|x| - veh) / feat` in `size_t`
        arithmetic, and 0 in a filter without landmarks. */
    function NumberOfLandmarks(): (r: nat)
      reads this`x
      ensures d.feat == 0 ==> r == 0
      ensures d.feat > 0 && d.veh <= |x| < d.veh + SizeT ==> d.veh + r * d.feat <= |x| < d.veh + (r + 1) * d.feat
    {
      if d.feat == 0 then 0 else ((|x| - d.veh) % SizeT) / d.feat
    }

    /** `isMapEmpty`: the state is the vehicle alone; always, in a filter
        without landmarks. */
    function IsMapEmpty(): (r: bool)
      reads this`x
      ensures r ==> NumberOfLandmarks() == 0
    {
      d.feat == 0 || |x| == d.veh
    }

    /** A state of whole landmarks holds `NumberOfLandmarks()` of them. */
    lemma LandmarkLayout()
      requires d.feat > 0 && d.veh <= |x| < d.veh + SizeT && (|x| - d.veh) % d.feat == 0
      ensures |x| == d.veh + NumberOfLandmarks() * d.feat
    {
      assert (|x| - d.veh) % SizeT == |x| - d.veh;
    }

    /** On such a state the map is empty exactly when it has no landmarks. */
    lemma MapEmptyIffNoLandmarks()
      requires d.veh <= |x| < d.veh + SizeT
      ensures d.feat > 0 && (|x| - d.veh) % d.feat == 0 ==> (IsMapEmpty() <==> NumberOfLandmarks() == 0)
    {
      if d.feat > 0 && (|x| - d.veh) % d.feat == 0 {
        LandmarkLayout();
      }
    }

    /** A state shorter than the vehicle wraps around: the count is huge,
        not negative. */
    lemma ShortStateWraps()
      requires d.feat > 0 && |x| < d.veh <= |x| + SizeT
      ensures NumberOfLandmarks() == (SizeT + |x| - d.veh) / d.feat
    {
    }

    /** Stages 2 and 3: the prediction of the mean and the covariance, for
        the `nMap` landmarks of the map. Nothing changes when it fails. */
    method Predict(nMap: nat) returns (st: Status)
      requires Valid() && |x| == |P| && d.veh + nMap * d.feat <= |x|
      modifies this`x, this`P
      ensures Valid() && |x| == |P| == old(|x|)
      ensures var r := Prediction(m, opts, d, old(x), old(P), nMap);
        && (st.Done? <==> r.Ok?)
        && (r.Ok? ==> x == r.value.0 && P == r.value.1)
        && (r.Err? ==> st == Failed(r.error) && x == old(x) && P == old(P))
    {
      var u := m.action;
      var (xv, skip) := m.transition(u, x[..d.veh]);
      if skip {
        return Done;
      }
      var J := TransitionJacobian(m, opts, d, u, x[..d.veh]);
      if J.Err? {
        return Failed(J.error);
      }
      PredictCovariance(J.value, nMap);
      OverwriteVehicle(xv);
      x := m.normalize(x);
      st := Done;
    }

    /** Stage 3: the covariance prediction with the transition Jacobian `F`,
        block by block as the filter writes it. */
    method PredictCovariance(F: Matrix, nMap: nat)
      requires IsMatrix(P, |x|, |x|) && d.veh + nMap * d.feat <= |x|
      modifies this`P
      ensures P == PredictedCovariance(old(P), F, m.transitionNoise, d.veh, d.veh + nMap * d.feat, |x|)
    {
      var n := |x|;
      ghost var P0 := P;
      // the vehicle block
      PredictVehicleBlock(F, n);
      // the vehicle rows and columns of every landmark
      OffsetIsProduct(d, nMap);
      var i, off := 0, d.veh;
      while i < nMap
        invariant 0 <= i <= nMap && off == Offset(d, i)
        invariant P == PredictedCovariance(P0, F, m.transitionNoise, d.veh, off, n)
      {
        OffsetMono(d, i, nMap);
        PredictLandmarkRows(F, off, n, P0);
        i, off := i + 1, off + d.feat;
      }
    }

    /** The vehicle block of the prediction, `Q + F Pvv Fᵀ`. */
    method PredictVehicleBlock(F: Matrix, n: nat)
      requires IsMatrix(P, n, n) && d.veh <= n
      modifies this`P
      ensures P == PredictedCovariance(old(P), F, m.transitionNoise, d.veh, d.veh, n)
    {
      ghost var P0 := P;
      P := WriteBlock(P, 0, 0, PredictedVehicleBlock(P, F, m.transitionNoise, d.veh), d.veh, d.veh);
      MatrixExt(P, PredictedCovariance(P0, F, m.transitionNoise, d.veh, d.veh, n), n, n);
    }

    /** One pass of the landmark loop of the prediction: `F` times the
        vehicle rows of the landmark at `off`, and their transpose, extend
        the predicted part by that landmark. */
    method PredictLandmarkRows(F: Matrix, off: nat, n: nat, ghost P0: Matrix)
      requires IsMatrix(P0, n, n) && d.veh <= off && off + d.feat <= n
      requires P == PredictedCovariance(P0, F, m.transitionNoise, d.veh, off, n)
      modifies this`P
      ensures P == PredictedCovariance(P0, F, m.transitionNoise, d.veh, off + d.feat, n)
    {
      PredictionStep(P0, P, F, m.transitionNoise, d.veh, d.feat, off, n);
      var aux := Mul(F, Block(P, 0, off, d.veh, d.feat), d.veh, d.veh, d.feat);
      P := WriteBlock(P, 0, off, aux, d.veh, d.feat);
      P := WriteBlock(P, off, 0, Transpose(aux, d.veh, d.feat), d.feat, d.veh);
      MatrixExt(P, PredictedCovariance(P0, F, m.transitionNoise, d.veh, off + d.feat, n), n, n);
    }

    /** Stage 4: the new vehicle state overwrites the old one, component by
        component; the landmarks are kept. */
    method OverwriteVehicle(xv: Vector)
      requires |xv| == d.veh <= |x|
      modifies this`x
      ensures x == xv + old(x)[d.veh..]
    {
      var k := 0;
      while k < d.veh
        invariant 0 <= k <= d.veh && |x| == |old(x)|
        invariant forall a :: 0 <= a < |x| ==> x[a] == if a < k then xv[a] else old(x)[a]
      {
        x := x[k := xv[k]];
        k := k + 1;
      }
      assert x == xv + old(x)[d.veh..];
    }
    /** `KF_aux_estimate_obs_Hx_jacobian` / `KF_aux_estimate_obs_Hy_jacobian`:
        overwrite (temporarily) the slice of the state at `at` with `v`, and
        predict the observation of landmark `l` from the changed state. */
    method AuxEstimateObs(v: Vector, l: nat, at: nat) returns (out: Vector)
      requires at + |v| <= |x|
      modifies this`x
      ensures x == old(x)[..at] + v + old(x)[at + |v|..]
      ensures out == Single(m.observe(x, [l]))
    {
      x := x[..at] + v + x[at + |v|..];
      out := Single(m.observe(x, [l]));
    }

    /** `estimateJacobian` of the observation of landmark `l` with respect
        to the slice of length `len` at `at`, column by column by central
        differences. The slice is left overwritten, the rest of the state
        is not touched. */
    method EstimateObservationJacobian(l: nat, at: nat, len: nat, incr: Vector) returns (J: Matrix)
      requires at + len <= |x| && |incr| == len && Positive(incr)
      modifies this`x
      ensures |x| == |old(x)| && x[..at] == old(x)[..at] && x[at + len..] == old(x)[at + len..]
      ensures J == NumericJacobian(ObservationOfSlice(m, old(x), l, at, len), old(x)[at..at + len], incr, d.obs)
    {
      ghost var x0 := x;
      ghost var f := ObservationOfSlice(m, x0, l, at, len);
      var xs := x[at..at + len];
      var cols: seq<Vector> := [];
      var c := 0;
      while c < len
        invariant 0 <= c <= len && |cols| == c
        invariant |x| == |x0| && x[..at] == x0[..at] && x[at + len..] == x0[at + len..]
        invariant EstimatedColumns(f, xs, incr, d.obs, cols)
      {
        var col := EstimateColumn(l, at, xs, incr, c, x0);
        NextColumn(f, xs, incr, d.obs, cols, col);
        cols := cols + [col];
        c := c + 1;
      }
      J := FromColumns(cols, d.obs);
      ColumnsOfEstimate(f, xs, incr, d.obs, cols);
    }

    /** Column `c` of the estimate: the observation with component `c` of
        the slice moved up and down by its increment, from a state that
        agrees with `x0` outside the slice. */
    method EstimateColumn(l: nat, at: nat, xs: Vector, incr: Vector, c: nat, ghost x0: Vector) returns (col: Vector)
      requires at + |xs| <= |x| == |x0| && c < |xs| == |incr| && Positive(incr)
      requires x[..at] == x0[..at] && x[at + |xs|..] == x0[at + |xs|..]
      modifies this`x
      ensures |x| == |x0| && x[..at] == x0[..at] && x[at + |xs|..] == x0[at + |xs|..]
      ensures |col| == d.obs
      ensures col == DifferenceColumn(ObservationOfSlice(m, x0, l, at, |xs|), xs, incr, d.obs, c)
    {
      var h := incr[c];
      ghost var f := ObservationOfSlice(m, x0, l, at, |xs|);
      var plus := Probe(Perturbed(xs, c, h), l, at, x0, f);
      var minus := Probe(Perturbed(xs, c, -h), l, at, x0, f);
      col := HalvedDifference(plus, minus, h, d.obs);
      ColumnOfDifferences(f, xs, incr, c, h, d.obs, plus, minus);
    }

    /** One call of the estimator's function: the slice replaced by `v` in a
        state that agrees with `x0` outside it, and the observation there. */
    method Probe(v: Vector, l: nat, at: nat, ghost x0: Vector, ghost f: Vector -> Vector) returns (out: Vector)
      requires at + |v| <= |x| == |x0| && x[..at] == x0[..at] && x[at + |v|..] == x0[at + |v|..]
      requires f == ObservationOfSlice(m, x0, l, at, |v|)
      modifies this`x
      ensures |x| == |x0| && x[..at] == x0[..at] && x[at + |v|..] == x0[at + |v|..]
      ensures out == Sample(f, v)
    {
      out := AuxEstimateObs(v, l, at);
      assert x == x0[..at] + v + x0[at + |v|..];
      Splice(x0, v, at);
    }

    /** The observation Jacobians of landmark `l`: the closed form, or the
        estimates, each taken with the rest of the state as it was (the
        vehicle part is restored before the landmark part is perturbed),
        checked against the closed form when asked to. The state is as
        before. */
    method ObservationJacobiansAt(l: nat) returns (r: Result<(Matrix, Matrix)>)
      requires ObservationEstimable(m, d) && Offset(d, l) + d.feat <= |x|
      modifies this`x
      ensures x == old(x)
      ensures r == ObservationJacobians(m, opts, d, x, l)
    {
      var (Hxa, Hya, implemented) := m.observationJacobians(x, l);
      if AnalyticOnly(opts.useAnalyticObservationJacobian, implemented, opts) {
        return Ok((Hxa, Hya));
      }
      var Hx, Hy := ObservationEstimates(l);
      if CheckFails(Hx, Hxa, d.obs, d.veh, opts) {
        return Err(ObservationHxJacobianWrong);
      }
      if CheckFails(Hy, Hya, d.obs, d.feat, opts) {
        return Err(ObservationHyJacobianWrong);
      }
      r := Ok((Hx, Hy));
    }

    /** Both estimates of the observation Jacobians of landmark `l`, each
        from the unchanged state: the vehicle part is copied back after the
        first, the landmark part after the second. */
    method ObservationEstimates(l: nat) returns (Hx: Matrix, Hy: Matrix)
      requires Offset(d, l) + d.feat <= |x|
      requires |m.observationIncrements.0| == d.veh && Positive(m.observationIncrements.0)
      requires |m.observationIncrements.1| == d.feat && Positive(m.observationIncrements.1)
      modifies this`x
      ensures x == old(x)
      ensures Hx == EstimatedHx(m, d, x, l) && Hy == EstimatedHy(m, d, x, l)
    {
      ghost var x0 := x;
      var off := Offset(d, l);
      var xVehicle := x[..d.veh];
      var xFeat := x[off..off + d.feat];
      var (incV, incF) := m.observationIncrements;
      Hx := EstimateObservationJacobian(l, 0, d.veh, incV);
      Restore(x0, x, 0, d.veh);
      assert x[..0] == [];
      x := xVehicle + x[d.veh..];
      assert x == x0;
      Hy := EstimateObservationJacobian(l, off, d.feat, incF);
      Restore(x0, x, off, d.feat);
      x := x[..off] + xFeat + x[off + d.feat..];
    }

    /** Stage 5: the Jacobians of the predictions from `first` on, appended
        to the lists; the state is as before. */
    method BuildJacobians(first: nat) returns (st: Status)
      requires JacobiansMatch(m, opts, d, x, predictLMidxs, Hxs, Hys, first)
      modifies this`x, this`Hxs, this`Hys
      ensures x == old(x)
      ensures st.Done? ==> JacobiansMatch(m, opts, d, x, predictLMidxs, Hxs, Hys, |predictLMidxs|)
      ensures st.Failed? ==> exists i :: first <= i < |predictLMidxs| && ObservationJacobians(m, opts, d, x, LandmarkOf(predictLMidxs, i, d)) == Err(st.error)
    {
      var i := first;
      while i < |predictLMidxs|
        invariant first <= i <= |predictLMidxs| && x == old(x)
        invariant JacobiansMatch(m, opts, d, x, predictLMidxs, Hxs, Hys, i)
      {
        st := NextJacobians(i);
        if st.Failed? {
          return;
        }
        i := i + 1;
      }
      st := Done;
    }

    /** The Jacobians of entry `i` of the prediction list, appended. */
    method NextJacobians(i: nat) returns (st: Status)
      requires JacobiansMatch(m, opts, d, x, predictLMidxs, Hxs, Hys, i) && i < |predictLMidxs|
      modifies this`x, this`Hxs, this`Hys
      ensures x == old(x)
      ensures st.Done? ==> JacobiansMatch(m, opts, d, x, predictLMidxs, Hxs, Hys, i + 1)
      ensures st.Failed? ==> ObservationJacobians(m, opts, d, x, LandmarkOf(predictLMidxs, i, d)) == Err(st.error)
    {
      var r := ObservationJacobiansAt(LandmarkOf(predictLMidxs, i, d));
      if r.Err? {
        return Failed(r.error);
      }
      Hxs := Hxs + [r.value.0];
      Hys := Hys + [r.value.1];
      st := Done;
    }

    /** Stage 6: the innovation grid from the Jacobians. The upper triangle
        is computed block by block and mirrored below the diagonal, `R` is
        added on the diagonal; a filter without landmarks has the single
        block `Hx P Hxᵀ + R`. */
    method BuildInnovation(R: Matrix)
      requires IsMatrix(P, |x|, |x|) && |Hxs| == |Hys| == |predictLMidxs|
      requires d.feat == 0 ==> |Hxs| >= 1
      modifies this`S
      ensures d.feat > 0 ==> S == InnovationGrid(P, Hxs, Hys, predictLMidxs, R, d)
      ensures d.feat == 0 ==> S == NonSlamInnovation(P, Hxs[0], R, |x|, d.obs)
    {
      if d.feat == 0 {
        S := NonSlamInnovation(P, Hxs[0], R, |x|, d.obs);
        return;
      }
      var N := |predictLMidxs|;
      S := seq(N, _ => seq(N, _ => Zero(d.obs, d.obs)));
      var i := 0;
      while i < N
        invariant 0 <= i <= N
        invariant |S| == N && forall a :: 0 <= a < N ==> |S[a]| == N
        invariant forall a, b :: 0 <= a < N && 0 <= b < N && (a < i || b < i) ==> S[a][b] == GridBlock(P, Hxs, Hys, predictLMidxs, R, d, a, b)
      {
        InnovationRow(i, R);
        i := i + 1;
      }
      GridExt(S, InnovationGrid(P, Hxs, Hys, predictLMidxs, R, d), N);
    }

    /** Row `i` of the innovation grid: the blocks from the diagonal on,
        mirrored into column `i`, then `R` on the diagonal block. */
    method InnovationRow(i: nat, R: Matrix)
      requires |Hxs| == |Hys| == |predictLMidxs| && i < |predictLMidxs|
      requires |S| == |predictLMidxs| && forall a :: 0 <= a < |S| ==> |S[a]| == |S|
      requires forall a, b :: 0 <= a < |S| && 0 <= b < |S| && (a < i || b < i) ==>
        S[a][b] == GridBlock(P, Hxs, Hys, predictLMidxs, R, d, a, b)
      modifies this`S
      ensures |S| == |predictLMidxs| && forall a :: 0 <= a < |S| ==> |S[a]| == |S|
      ensures forall a, b :: 0 <= a < |S| && 0 <= b < |S| && (a <= i || b <= i) ==>
        S[a][b] == GridBlock(P, Hxs, Hys, predictLMidxs, R, d, a, b)
    {
      MirrorRow(i, R);
      S := S[i := S[i][i := Add(S[i][i], R, d.obs, d.obs)]];
    }

    /** The blocks of row `i` from the diagonal on, each mirrored into
        column `i`; the diagonal block still without `R`. */
    method MirrorRow(i: nat, ghost R: Matrix)
      requires |Hxs| == |Hys| == |predictLMidxs| && i < |predictLMidxs|
      requires |S| == |predictLMidxs| && forall a :: 0 <= a < |S| ==> |S[a]| == |S|
      requires forall a, b :: 0 <= a < |S| && 0 <= b < |S| && (a < i || b < i) ==>
        S[a][b] == GridBlock(P, Hxs, Hys, predictLMidxs, R, d, a, b)
      modifies this`S
      ensures RowMirrored(S, P, Hxs, Hys, predictLMidxs, R, d, i, |S|)
    {
      var N := |predictLMidxs|;
      var j := i;
      while j < N
        invariant RowMirrored(S, P, Hxs, Hys, predictLMidxs, R, d, i, j)
      {
        MirrorStep(S, P, Hxs, Hys, predictLMidxs, R, d, i, j);
        var Sij := BlockOf(P, Hxs, Hys, predictLMidxs, d, i, j);
        S := S[i := S[i][j := Sij]];
        if i != j {
          S := S[j := S[j][i := Transpose(Sij, d.obs, d.obs)]];
        }
        j := j + 1;
      }
    }

    /** The landmarks the data association names that the prediction list
        lacks (`find_in_vector` over each association of 0 or more). */
    method CollectMissing(da: seq<int>) returns (missing: seq<nat>)
      ensures missing == Missing(da, predictLMidxs)
    {
      missing := [];
      var i := 0;
      while i < |da|
        invariant 0 <= i <= |da| && missing == Missing(da[..i], predictLMidxs)
      {
        assert da[..i + 1][..i] == da[..i];
        if da[i] >= 0 && Find(predictLMidxs, da[i] as nat).None? {
          missing := missing + [da[i] as nat];
        }
        i := i + 1;
      }
      assert da[..|da|] == da;
    }

    /** The landmarks of a prediction list and a pending addition to it. */
    ghost function Listed(idxs: seq<nat>, extra: seq<nat>): set<int>
    {
      set l | l in idxs + extra
    }

    /** Stages 5 to 7: the observations of the first `nMap` landmarks are
        predicted, the user picks the ones whose covariance is needed, and
        rounds of Jacobians, innovation and data association follow until
        every association is in the prediction list. The state is as
        before. */
    method PredictObservations(R: Matrix, nMap: nat) returns (st: Status, da: seq<int>)
      requires WellFormed(m, d) && IsMatrix(P, |x|, |x|)
      requires d.feat == 0 ==> nMap == 0
      requires d.veh <= |x| && Offset(d, nMap) <= |x|
      modifies this`x, this`allPredictions, this`predictLMidxs, this`Hxs, this`Hys, this`S, this`Z
      ensures x == old(x)
      ensures allPredictions == m.observe(x, MapLandmarks(nMap))
      ensures d.feat == 0 ==> predictLMidxs == [0]
      ensures d.feat > 0 ==> |m.preComputing(allPredictions)| <= |predictLMidxs|
      ensures d.feat > 0 ==> predictLMidxs[..|m.preComputing(allPredictions)|] == m.preComputing(allPredictions)
      ensures d.feat > 0 ==> forall l :: l in predictLMidxs ==> l < nMap
      ensures Fits(x, predictLMidxs, d)
      ensures st.Done? ==> Round(R) && (Z, da) == m.associate(allPredictions, S, predictLMidxs)
      ensures st.Done? && d.feat > 0 ==> Missing(da, predictLMidxs) == []
      ensures st.Failed? ==> exists i :: 0 <= i < |predictLMidxs| && ObservationJacobians(m, opts, d, x, LandmarkOf(predictLMidxs, i, d)) == Err(st.error)
    {
      allPredictions := m.observe(x, MapLandmarks(nMap));
      ghost var preds := allPredictions;
      assert d.feat > 0 ==> |preds| == nMap;
      if d.feat == 0 {
        predictLMidxs := [0];
      } else {
        predictLMidxs := m.preComputing(allPredictions);
      }
      FitsBelow(x, predictLMidxs, d, nMap);
      Hxs, Hys := [], [];
      st, da := RetryAssociation(R, nMap);
    }

    /** The `do ... while` loop of stages 5 to 7: rounds until the data
        association names no landmark the prediction list lacks. The list
        only grows, by landmarks it did not hold, so at most `nMap` rounds
        add to it. */
    method RetryAssociation(R: Matrix, nMap: nat) returns (st: Status, da: seq<int>)
      requires AssociationBounded(m, d) && IsMatrix(P, |x|, |x|)
      requires d.veh <= |x| && Offset(d, nMap) <= |x|
      requires d.feat == 0 ==> predictLMidxs == [0]
      requires d.feat > 0 ==> |allPredictions| == nMap && forall l :: l in predictLMidxs ==> l < nMap
      requires Hxs == [] && Hys == [] && JacobiansMatch(m, opts, d, x, predictLMidxs, Hxs, Hys, 0)
      modifies this`x, this`predictLMidxs, this`Hxs, this`Hys, this`S, this`Z
      ensures x == old(x)
      ensures |old(predictLMidxs)| <= |predictLMidxs| && predictLMidxs[..|old(predictLMidxs)|] == old(predictLMidxs)
      ensures d.feat == 0 ==> predictLMidxs == [0]
      ensures d.feat > 0 ==> forall l :: l in predictLMidxs ==> l < nMap
      ensures Fits(x, predictLMidxs, d)
      ensures st.Done? ==> Round(R) && (Z, da) == m.associate(allPredictions, S, predictLMidxs)
      ensures st.Done? && d.feat > 0 ==> Missing(da, predictLMidxs) == []
      ensures st.Failed? ==> exists i :: 0 <= i < |predictLMidxs| && ObservationJacobians(m, opts, d, x, LandmarkOf(predictLMidxs, i, d)) == Err(st.error)
    {
      ghost var init := predictLMidxs;
      if d.feat > 0 {
        assert predictLMidxs + [] == predictLMidxs;
        SetBound(Listed(predictLMidxs, []), nMap);
      }
      var missing: seq<nat> := [];
      da := [];
      var again := true;
      st := Done;
      while again
        invariant x == old(x) && Retrying(init, missing, nMap)
        invariant d.feat > 0 ==> forall l :: l in predictLMidxs ==> l < nMap
        invariant st.Done? && JacobiansMatch(m, opts, d, x, predictLMidxs, Hxs, Hys, |Hxs|)
        invariant !again ==> missing == [] && Fits(x, predictLMidxs, d)
        invariant !again ==> Round(R) && (Z, da) == m.associate(allPredictions, S, predictLMidxs)
        invariant !again && d.feat > 0 ==> Missing(da, predictLMidxs) == []
        decreases (if again then 1 else 0) + (if d.feat == 0 then 0 else nMap - |Listed(predictLMidxs, missing)|)
      {
        st, da, missing := RetryRound(R, nMap, missing, init);
        if st.Failed? {
          return;
        }
        again := missing != [];
      }
    }

    /** What the retry loop keeps: the prediction list only grows from
        `init`, and every landmark listed or about to be is in the map. */
    ghost predicate Retrying(init: seq<nat>, missing: seq<nat>, nMap: nat)
      reads this`predictLMidxs
    {
      && |init| <= |predictLMidxs| && predictLMidxs[..|init|] == init
      && (d.feat == 0 ==> predictLMidxs == [0] && missing == [])
      && (d.feat > 0 ==> (forall l :: l in predictLMidxs + missing ==> l < nMap)
                         && |Listed(predictLMidxs, missing)| <= nMap)
    }

    /** One pass of the retry loop: a round, and whether the list it leaves
        still misses landmarks, which then are new to the list. */
    method RetryRound(R: Matrix, nMap: nat, missing: seq<nat>, ghost init: seq<nat>) returns (st: Status, da: seq<int>, next: seq<nat>)
      requires AssociationBounded(m, d) && IsMatrix(P, |x|, |x|)
      requires d.veh <= |x| && Offset(d, nMap) <= |x|
      requires d.feat > 0 ==> |allPredictions| == nMap
      requires Retrying(init, missing, nMap)
      requires JacobiansMatch(m, opts, d, x, predictLMidxs, Hxs, Hys, |Hxs|)
      modifies this`x, this`predictLMidxs, this`Hxs, this`Hys, this`S, this`Z
      ensures x == old(x) && Fits(x, predictLMidxs, d)
      ensures d.feat > 0 ==> forall l :: l in predictLMidxs ==> l < nMap
      ensures Retrying(init, if st.Done? then next else [], nMap)
      ensures st.Done? ==> JacobiansMatch(m, opts, d, x, predictLMidxs, Hxs, Hys, |Hxs|)
      ensures st.Done? ==> Round(R) && (Z, da) == m.associate(allPredictions, S, predictLMidxs)
      ensures st.Done? && d.feat > 0 ==> Missing(da, predictLMidxs) == next
      ensures st.Done? && d.feat == 0 ==> next == []
      ensures st.Done? ==> Listed(predictLMidxs, []) == old(Listed(predictLMidxs, missing))
      ensures st.Done? && next != [] ==> d.feat > 0 && old(|Listed(predictLMidxs, missing)|) < |Listed(predictLMidxs, next)|
      ensures st.Failed? ==> exists i :: 0 <= i < |predictLMidxs| && ObservationJacobians(m, opts, d, x, LandmarkOf(predictLMidxs, i, d)) == Err(st.error)
    {
      ghost var before := Listed(predictLMidxs, missing);
      ghost var grown := predictLMidxs + missing;
      assert predictLMidxs[..|init|] == init;
      st, da, next := AssociationRound(R, nMap, missing);
      assert predictLMidxs == grown && grown[..|init|] == init;
      assert Listed(predictLMidxs, []) == before by {
        assert predictLMidxs + [] == grown;
      }
      if d.feat > 0 {
        if st.Done? {
          SetBound(Listed(predictLMidxs, next), nMap);
          if next != [] {
            assert next[0] in predictLMidxs + next;
            StrictSuperset(before, Listed(predictLMidxs, next), next[0]);
          }
        }
      }
    }

    /** One round has finished: the Jacobians of the whole prediction list
        and the innovation grid built from them. */
    ghost predicate Round(R: Matrix)
      reads this`x, this`P, this`predictLMidxs, this`Hxs, this`Hys, this`S
    {
      RoundAt(x, P, R)
    }

    /** The Jacobians of the whole prediction list at `x0`, and the
        innovation grid built from them and the covariance `P0`. */
    ghost predicate RoundAt(x0: Vector, P0: Matrix, R: Matrix)
      reads this`predictLMidxs, this`Hxs, this`Hys, this`S
    {
      && JacobiansMatch(m, opts, d, x0, predictLMidxs, Hxs, Hys, |predictLMidxs|)
      && (d.feat == 0 ==> |predictLMidxs| == 1 && S == NonSlamInnovation(P0, Hxs[0], R, |x0|, d.obs))
      && (d.feat > 0 ==> S == InnovationGrid(P0, Hxs, Hys, predictLMidxs, R, d))
    }

    /** Stages 5 to 7 finished on the predicted state `x0`, `P0`: every
        landmark of the map observed, the user's pick leading the
        prediction list, a round for the whole list, and the observations
        `Z` and association that the data association returned, the
        association naming no landmark the list lacks. */
    ghost predicate ObservedFrom(x0: Vector, P0: Matrix, nMap: nat)
      reads this`allPredictions, this`predictLMidxs, this`Hxs, this`Hys, this`S, this`Z
    {
      && allPredictions == m.observe(x0, MapLandmarks(nMap))
      && (d.feat == 0 ==> predictLMidxs == [0])
      && (d.feat > 0 ==> |m.preComputing(allPredictions)| <= |predictLMidxs|
                         && predictLMidxs[..|m.preComputing(allPredictions)|] == m.preComputing(allPredictions))
      && RoundAt(x0, P0, m.observationNoise)
      && Z == m.associate(allPredictions, S, predictLMidxs).0
      && (d.feat > 0 ==> Missing(m.associate(allPredictions, S, predictLMidxs).1, predictLMidxs) == [])
    }

    /** Stages 5 to 9 from the predicted state `x0`, `P0` failed with `e`:
        in the Jacobians of some landmark, or in the update after the
        observation stage finished. */
    ghost predicate ObservationFailed(x0: Vector, P0: Matrix, nMap: nat, e: Error)
      reads this`allPredictions, this`predictLMidxs, this`Hxs, this`Hys, this`S, this`Z
    {
      || JacobianFailed(x0, e)
      || (var da := m.associate(allPredictions, S, predictLMidxs).1;
          && ObservedFrom(x0, P0, nMap)
          && UpdateReady(|x0|, P0, Z, da, S, predictLMidxs, Hxs, Hys, allPredictions, m, d)
          && FinishIteration(x0, P0, Z, da, S, predictLMidxs, Hxs, Hys, allPredictions, m.observationNoise, m, opts, d) == Err(e))
    }

    /** The Jacobians of some landmark of the prediction list at `x0` fail
        with `e`. */
    ghost predicate JacobianFailed(x0: Vector, e: Error)
      reads this`predictLMidxs
    {
      && ObservationEstimable(m, d) && Fits(x0, predictLMidxs, d)
      && exists i :: 0 <= i < |predictLMidxs| && ObservationJacobians(m, opts, d, x0, LandmarkOf(predictLMidxs, i, d)) == Err(e)
    }

    /** One round of the retry loop: the missing landmarks are appended to
        the prediction list, the Jacobians of the new entries are built, then
        the innovation grid, and the data association is asked for; the
        landmarks it names that the list lacks are returned. */
    method AssociationRound(R: Matrix, nMap: nat, missing: seq<nat>) returns (st: Status, da: seq<int>, next: seq<nat>)
      requires AssociationBounded(m, d) && IsMatrix(P, |x|, |x|)
      requires d.veh <= |x| && Offset(d, nMap) <= |x|
      requires d.feat == 0 ==> predictLMidxs == [0] && missing == []
      requires d.feat > 0 ==> |allPredictions| == nMap && forall l :: l in predictLMidxs + missing ==> l < nMap
      requires JacobiansMatch(m, opts, d, x, predictLMidxs, Hxs, Hys, |Hxs|)
      modifies this`x, this`predictLMidxs, this`Hxs, this`Hys, this`S, this`Z
      ensures x == old(x) && predictLMidxs == old(predictLMidxs) + missing && Fits(x, predictLMidxs, d)
      ensures d.feat > 0 ==> forall l :: l in predictLMidxs ==> l < nMap
      ensures st.Done? ==> Round(R) && (Z, da) == m.associate(allPredictions, S, predictLMidxs)
      ensures st.Done? ==> next == if d.feat == 0 then [] else Missing(da, predictLMidxs)
      ensures st.Done? && d.feat > 0 ==> forall l :: l in predictLMidxs + next ==> l < nMap
      ensures st.Failed? ==> exists i :: 0 <= i < |predictLMidxs| && ObservationJacobians(m, opts, d, x, LandmarkOf(predictLMidxs, i, d)) == Err(st.error)
    {
      FitsBelow(x, predictLMidxs + missing, d, nMap);
      JacobiansMatchGrow(m, opts, d, x, predictLMidxs, missing, Hxs, Hys, |Hxs|);
      predictLMidxs := predictLMidxs + missing;
      st := BuildJacobians(|Hxs|);
      da, next := [], [];
      if st.Failed? {
        return;
      }
      BuildInnovation(R);
      var za := m.associate(allPredictions, S, predictLMidxs);
      Z, da := za.0, za.1;
      if d.feat > 0 {
        next := CollectMissing(da);
        MissingIsExact(da, predictLMidxs);
        assert Associated(za, |allPredictions|, d);
      }
    }

    /** The rows of the full observation Jacobian, the innovation and the
        places in the prediction list of the observed landmarks, built
        association by association; an association to a landmark the
        prediction list lacks is an error. */
    method ObservedRows(da: seq<int>) returns (r: Result<Observed>)
      requires Subtracting(m, d) && |da| == |Z| && |Hxs| == |Hys| == |predictLMidxs|
      requires forall i :: 0 <= i < |da| ==> da[i] < |allPredictions| && |Z[i]| == d.obs
      ensures r == ObservedUpTo(|da|, da, Z, predictLMidxs, Hxs, Hys, allPredictions, m, |x|, d)
    {
      var o := Observed([], [], []);
      var i := 0;
      while i < |da|
        invariant 0 <= i <= |da|
        invariant ObservedUpTo(i, da, Z, predictLMidxs, Hxs, Hys, allPredictions, m, |x|, d) == Ok(o)
      {
        r := ObserveEntry(da, i, o);
        if r.Err? {
          return;
        }
        o := r.value;
        i := i + 1;
      }
      r := Ok(o);
    }

    /** Association `i` looked at after the first `i`: an observed
        landmark appends its rows, its innovation and its place in the
        prediction list. */
    method ObserveEntry(da: seq<int>, i: nat, o: Observed) returns (r: Result<Observed>)
      requires Subtracting(m, d) && i < |da| == |Z| && |Hxs| == |Hys| == |predictLMidxs|
      requires forall i :: 0 <= i < |da| ==> da[i] < |allPredictions| && |Z[i]| == d.obs
      requires ObservedUpTo(i, da, Z, predictLMidxs, Hxs, Hys, allPredictions, m, |x|, d) == Ok(o)
      ensures r == ObservedUpTo(i + 1, da, Z, predictLMidxs, Hxs, Hys, allPredictions, m, |x|, d)
      ensures r.Err? ==> r == ObservedUpTo(|da|, da, Z, predictLMidxs, Hxs, Hys, allPredictions, m, |x|, d)
    {
      if da[i] < 0 {
        return Ok(o);
      }
      var l := da[i] as nat;
      var p := Find(predictLMidxs, l);
      if p.None? {
        r := Err(LandmarkNotPredicted);
        ObservedUpToStops(i + 1, |da|, da, Z, predictLMidxs, Hxs, Hys, allPredictions, m, |x|, d);
        return;
      }
      r := Ok(Observed(o.H + ObservationRows(Hxs[p.value], Hys[p.value], Offset(d, l), |x|, d),
                       o.y + m.subtract(Z[i], allPredictions[l]),
                       o.sIdx + [p.value]));
    }

    /** Stage 8, `kfEKFNaive` and `kfIKFFull`: the gain from the observed
        part of the problem, then one mean update per iteration (`x + K y`
        for one, the IKF step from the predicted mean otherwise) and the
        covariance `(I - K H) P` on the last one. */
    method UpdateFull(da: seq<int>) returns (st: Status)
      requires UpdateReady(|x|, P, Z, da, S, predictLMidxs, Hxs, Hys, allPredictions, m, d)
      modifies this`x, this`P
      ensures var r := FullUpdate(old(x), old(P), Z, da, S, predictLMidxs, Hxs, Hys, allPredictions, m, opts, d);
        && (st.Done? <==> r.Ok?)
        && (r.Ok? ==> x == r.value.0 && P == r.value.1)
        && (r.Err? ==> st.error == r.error && x == old(x) && P == old(P))
    {
      var n := |x|;
      var nUpd := if d.feat == 0 then 1 else |Kept(da)|;
      var nIter := Iterations(opts);
      if nUpd == 0 || nIter == 0 {
        return Done;
      }
      var L := Linearized(da);
      if L.Err? {
        return Failed(L.error);
      }
      var K := Gain(P, L.value.H, L.value.So, m, n, L.value.rows);
      Iterate(K, L.value.H, L.value.y, L.value.rows, nIter);
      st := Done;
    }

    /** The observed part of the problem: in a filter without landmarks the
        one observation against the one prediction, otherwise the stacked
        rows of the observed known landmarks. The state is as before. */
    method Linearized(da: seq<int>) returns (r: Result<Linearization>)
      requires UpdateReady(|x|, P, Z, da, S, predictLMidxs, Hxs, Hys, allPredictions, m, d)
      ensures r == Linearize(|x|, P, Z, da, S, predictLMidxs, Hxs, Hys, allPredictions, m, d)
    {
      if d.feat == 0 {
        if !(|Z| == 1 && |allPredictions| == 1) {
          return Err(NonSlamShape);
        }
        return Ok(Linearization(Hxs[0], m.subtract(Z[0], allPredictions[0]), S[0][0], d.obs));
      }
      var o := ObservedRows(da);
      if o.Err? {
        return Err(o.error);
      }
      r := Ok(Linearization(o.value.H, o.value.y, ObservedInnovation(S, o.value.sIdx, d.obs), d.obs * |o.value.sIdx|));
    }

    /** The `nIter` iterations of the full update with gain `K`: one mean
        update per iteration (`x + K y` for one, the IKF step from the
        predicted mean otherwise) and the covariance `(I - K H) P` on the
        last one. */
    method Iterate(K: Matrix, H: Matrix, y: Vector, rows: nat, nIter: nat)
      requires |y| == rows && nIter > 0
      modifies this`x, this`P
      ensures x == UpdatedMean(old(x), K, H, y, rows, nIter)
      ensures P == UpdatedCovariance(old(P), K, H, |old(x)|, rows)
    {
      var n := |x|;
      var x0 := x;
      ghost var P0 := P;
      var t := 0;
      while t < nIter
        invariant t <= nIter && |x| == n
        invariant nIter == 1 ==> x == if t == 0 then x0 else UpdatedMean(x0, K, H, y, rows, 1)
        invariant nIter != 1 ==> x == Iterated(x0, K, H, y, rows, t)
        invariant P == if t == nIter then UpdatedCovariance(P0, K, H, n, rows) else P0
      {
        if nIter == 1 {
          x := VecAdd(x, MatVec(K, y, n, rows));
          assert x == UpdatedMean(x0, K, H, y, rows, 1);
        } else {
          x := MeanStep(x0, x, K, H, y, rows);
          assert x == Iterated(x0, K, H, y, rows, t + 1);
        }
        if t == nIter - 1 {
          UpdateCovariance(K, H, n, rows);
        }
        t := t + 1;
      }
    }

    /** The covariance update `(I - K H) P` of the last iteration. */
    method UpdateCovariance(K: Matrix, H: Matrix, n: nat, rows: nat)
      modifies this`P
      ensures P == UpdatedCovariance(old(P), K, H, n, rows)
    {
      var A := IdentityMinus(Mul(K, H, n, rows, n), n);
      P := Mul(A, P, n, n, n);
    }

    /** Stage 8, `kfEKFAlaDavison`: the observations one after the other,
        each updating the state one scalar component at a time. */
    method UpdateDavison(da: seq<int>, R: Matrix) returns (st: Status)
      requires IsMatrix(P, |x|, |x|) && |Hxs| == |Hys| == |predictLMidxs|
      modifies this`x, this`P
      ensures var r := DavisonUpTo(|Z|, old(x), old(P), Z, da, predictLMidxs, Hxs, Hys, R, m, opts, d);
        && (st.Done? <==> r.Ok?)
        && (r.Ok? ==> x == r.value.0 && P == r.value.1)
        && (r.Err? ==> st.error == r.error)
    {
      ghost var x0, P0 := x, P;
      var i := 0;
      while i < |Z|
        invariant 0 <= i <= |Z|
        invariant DavisonUpTo(i, x0, P0, Z, da, predictLMidxs, Hxs, Hys, R, m, opts, d) == Ok((x, P))
        invariant IsMatrix(P, |x|, |x|)
      {
        st := DavisonObservationStep(da, i, R);
        if st.Failed? {
          DavisonUpToStops(i + 1, |Z|, x0, P0, Z, da, predictLMidxs, Hxs, Hys, R, m, opts, d);
          return;
        }
        i := i + 1;
      }
      st := Done;
    }

    /** One observation of the scalar update: the innovation against the
        prediction at the current mean, then one scalar update per component
        with the Jacobians of the landmark's place in the prediction list. */
    method DavisonObservationStep(da: seq<int>, i: nat, R: Matrix) returns (st: Status)
      requires IsMatrix(P, |x|, |x|) && |Hxs| == |Hys| == |predictLMidxs| && i < |Z|
      modifies this`x, this`P
      ensures var r := DavisonObservation(old(x), old(P), Z, da, i, predictLMidxs, Hxs, Hys, R, m, opts, d);
        && (st.Done? <==> r.Ok?)
        && (r.Ok? ==> x == r.value.0 && P == r.value.1 && IsMatrix(P, |x|, |x|))
        && (r.Err? ==> st.error == r.error)
    {
      var lm := UpdatedLandmark(da, i);
      if lm.None? {
        return Done;
      }
      var l := lm.value;
      var off := Offset(d, l);
      var y := m.subtract(Z[i], Single(m.observe(x, [l])));
      var p := Find(predictLMidxs, l);
      if p.None? {
        return Failed(LandmarkNotPredicted);
      }
      st := ScalarUpdatesOf(Hxs[p.value], Hys[p.value], R, off, y);
    }

    /** The scalar updates of one observation, component by component,
        stopping at the first that fails. */
    method ScalarUpdatesOf(Hx: Matrix, Hy: Matrix, R: Matrix, off: nat, y: Vector) returns (st: Status)
      requires IsMatrix(P, |x|, |x|)
      modifies this`x, this`P
      ensures var r := ScalarUpdates(old(x), old(P), Hx, Hy, R, off, y, d.obs, opts, d);
        && (st.Done? <==> r.Ok?)
        && (r.Ok? ==> x == r.value.0 && P == r.value.1 && IsMatrix(P, |x|, |x|))
        && (r.Err? ==> st.error == r.error)
    {
      ghost var x0, P0 := x, P;
      var j := 0;
      while j < d.obs
        invariant 0 <= j <= d.obs
        invariant ScalarUpdates(x0, P0, Hx, Hy, R, off, y, j, opts, d) == Ok((x, P))
        invariant IsMatrix(P, |x|, |x|)
      {
        st := ScalarStepFrom(Hx, Hy, R, j, off, y, x0, P0);
        if st.Failed? {
          return;
        }
        j := j + 1;
      }
      st := Done;
    }

    /** Scalar update `j` after the first `j`: either the first `j + 1`
        succeed, or the whole observation's updates fail with its error. */
    method ScalarStepFrom(Hx: Matrix, Hy: Matrix, R: Matrix, j: nat, off: nat, y: Vector, ghost x0: Vector, ghost P0: Matrix) returns (st: Status)
      requires j < d.obs && IsMatrix(P, |x|, |x|)
      requires ScalarUpdates(x0, P0, Hx, Hy, R, off, y, j, opts, d) == Ok((x, P))
      modifies this`x, this`P
      ensures st.Done? ==> ScalarUpdates(x0, P0, Hx, Hy, R, off, y, j + 1, opts, d) == Ok((x, P)) && IsMatrix(P, |x|, |x|)
      ensures st.Failed? ==> ScalarUpdates(x0, P0, Hx, Hy, R, off, y, d.obs, opts, d) == Err(st.error)
    {
      st := ScalarStep(Hx, Hy, R, j, off, y);
      if st.Failed? {
        ScalarUpdatesStop(x0, P0, Hx, Hy, R, off, y, j + 1, d.obs, opts, d);
      }
    }

    /** One scalar update: component `j` of the innovation `y` of the
        landmark at `off`. */
    method ScalarStep(Hx: Matrix, Hy: Matrix, R: Matrix, j: nat, off: nat, y: Vector) returns (st: Status)
      requires IsMatrix(P, |x|, |x|)
      modifies this`x, this`P
      ensures var r := ScalarUpdate(old(x), old(P), Hx, Hy, R, j, off, y, opts, d);
        && (st.Done? <==> r.Ok?)
        && (r.Ok? ==> x == r.value.0 && P == r.value.1)
        && (r.Err? ==> st.error == r.error)
    {
      if opts.debugBuild {
        var independent := IndependentNoise(R);
        if !independent {
          return Failed(DependentNoise);
        }
      }
      var s := Variance(Hx, Hy, R, j, off);
      if s == 0.0 {
        return Failed(ZeroInnovationVariance);
      }
      var K := GainVector(Hx, Hy, j, off, s);
      ApplyGain(K, Get(y, j));
      var ok := Downdate(K, s);
      st := if ok then Done else Failed(NegativeVariance);
    }

    /** The debug check that `R` has no correlated components. */
    method IndependentNoise(R: Matrix) returns (ok: bool)
      ensures ok == Diagonal(R, d.obs)
    {
      for a := 0 to d.obs
        invariant forall a', b :: 0 <= a' < a && 0 <= b < d.obs && a' != b ==> At(R, a', b) == 0.0
      {
        for b := 0 to d.obs
          invariant forall b' :: 0 <= b' < b && a != b' ==> At(R, a, b') == 0.0
        {
          if a != b && At(R, a, b) != 0.0 {
            return false;
          }
        }
      }
      return true;
    }

    /** The variance of component `j`: `R(j,j)` plus the three terms of the
        vehicle block, the cross block (twice) and the landmark block. */
    method Variance(Hx: Matrix, Hy: Matrix, R: Matrix, j: nat, off: nat) returns (s: real)
      ensures s == ScalarVariance(P, Hx, Hy, R, j, off, d)
    {
      s := At(R, j, j);
      var term1 := NestedTerm(Hx, 0, 0, d.veh, d.veh, Hx, j);
      s := s + term1;
      var term2 := NestedTerm(Hy, off, 0, d.feat, d.veh, Hx, j);
      s := s + 2.0 * term2;
      var term3 := NestedTerm(Hy, off, off, d.feat, d.feat, Hy, j);
      s := s + term3;
    }

    /** `sum over k < w of B(j,k) (sum over q < h of A(j,q) P(r0+q, c0+k))`,
        the inner sum accumulated first as the filter does. */
    method NestedTerm(A: Matrix, r0: nat, c0: nat, h: nat, w: nat, B: Matrix, j: nat) returns (t: real)
      ensures t == Sum(w, Nested(A, Block(P, r0, c0, h, w), B, j, j, h))
    {
      ghost var C := Block(P, r0, c0, h, w);
      t := 0.0;
      for k := 0 to w
        invariant t == Sum(k, Nested(A, C, B, j, j, h))
      {
        var accum := InnerTerm(A, r0, c0, h, w, j, k);
        t := t + At(B, j, k) * accum;
      }
    }

    /** The inner sum of `NestedTerm` for column `k` of the block. */
    method InnerTerm(A: Matrix, r0: nat, c0: nat, h: nat, w: nat, j: nat, k: nat) returns (accum: real)
      requires k < w
      ensures accum == Sum(h, Prod(A, Block(P, r0, c0, h, w), j, k))
    {
      ghost var C := Block(P, r0, c0, h, w);
      accum := 0.0;
      for q := 0 to h
        invariant accum == Sum(q, Prod(A, C, j, k))
      {
        accum := accum + At(A, j, q) * At(P, r0 + q, c0 + k);
      }
    }

    /** The gain of component `j`: each entry the vehicle terms, then the
        landmark terms, over the variance. */
    method GainVector(Hx: Matrix, Hy: Matrix, j: nat, off: nat, s: real) returns (K: Vector)
      requires s != 0.0
      ensures K == ScalarGain(P, Hx, Hy, j, off, s, |x|, d)
    {
      ghost var G := ScalarGain(P, Hx, Hy, j, off, s, |x|, d);
      K := [];
      for k := 0 to |x|
        invariant |K| == k && forall a :: 0 <= a < k ==> K[a] == G[a]
      {
        var tmp := 0.0;
        for q := 0 to d.veh
          invariant tmp == Sum(q, VehicleGainTerms(P, Hx, j, k))
        {
          tmp := tmp + At(P, k, q) * At(Hx, j, q);
        }
        for q := 0 to d.feat
          invariant tmp == Sum(d.veh, VehicleGainTerms(P, Hx, j, k)) + Sum(q, LandmarkGainTerms(P, Hy, j, k, off))
        {
          tmp := tmp + At(P, k, off + q) * At(Hy, j, q);
        }
        K := K + [tmp / s];
      }
    }

    /** `x += K y_j`, component by component. */
    method ApplyGain(K: Vector, yj: real)
      requires |K| == |x|
      modifies this`x
      ensures x == Gained(old(x), K, yj)
    {
      ghost var G := Gained(x, K, yj);
      for k := 0 to |x|
        invariant |x| == |G|
        invariant forall a :: 0 <= a < k ==> x[a] == G[a]
        invariant forall a :: k <= a < |x| ==> x[a] == old(x)[a]
      {
        x := x[k := x[k] + K[k] * yj];
      }
    }

    /** `P -= s K Kᵀ` on the upper triangle, each entry copied below the
        diagonal; a checking build stops at the first negative variance. */
    method Downdate(K: Vector, s: real) returns (ok: bool)
      requires IsMatrix(P, |x|, |x|) && |K| == |x|
      modifies this`P
      ensures ok <==> !(ChecksDebug(opts) && NegativeDiagonal(DavisonCovariance(old(P), K, s, |x|), |x|))
      ensures ok ==> P == DavisonCovariance(old(P), K, s, |x|)
    {
      var n := |x|;
      ghost var P0 := P;
      ghost var D := DavisonCovariance(P0, K, s, n);
      for k := 0 to n
        invariant PartlyDowndated(P, P0, D, n, k, k)
        invariant ChecksDebug(opts) ==> forall a :: 0 <= a < k ==> D[a][a] >= 0.0
      {
        for q := k to n
          invariant PartlyDowndated(P, P0, D, n, k, q)
        {
          DowndateEntry(K, s, k, q, P0, D);
        }
        NextDowndatedRow(P, P0, D, n, k);
        if ChecksDebug(opts) && P[k][k] < 0.0 {
          assert 0 <= k < n && At(D, k, k) < 0.0;
          return false;
        }
      }
      assert forall a, b :: 0 <= a < n && 0 <= b < n ==> P[a][b] == D[a][b];
      MatrixExt(P, D, n, n);
      ok := true;
    }

    /** Entry (k, q) of the upper triangle downdated and mirrored to (q, k). */
    method DowndateEntry(K: Vector, s: real, k: nat, q: nat, ghost P0: Matrix, ghost D: Matrix)
      requires |K| == |x| && IsMatrix(P0, |x|, |x|) && D == DavisonCovariance(P0, K, s, |x|)
      requires k <= q < |x| && PartlyDowndated(P, P0, D, |x|, k, q)
      modifies this`P
      ensures PartlyDowndated(P, P0, D, |x|, k, q + 1)
    {
      P := P[k := P[k][q := P[k][q] - s * K[k] * K[q]]];
      P := P[q := P[q][k := P[k][q]]];
    }

    /** `addNewLandmarks`: every observation without an association (-1),
        in order, appends the landmark the inverse observation model places
        for it; a filter without landmarks adds none. */
    method AddNewLandmarks(da: seq<int>, R: Matrix, ghost nMap: nat)
      requires Inverting(m, d) && |da| == |Z| && IsMatrix(P, |x|, |x|) && d.veh <= |x|
      requires d.feat > 0 ==> |x| == Offset(d, nMap)
      modifies this`x, this`P
      ensures (x, P) == WithNewLandmarks(old(x), old(P), Z, da, R, m, d)
    {
      if d.feat == 0 {
        return;
      }
      ghost var x0, P0 := x, P;
      ghost var c := nMap;
      var obs := Z;
      for i := 0 to |obs|
        invariant (x, P) == Injected(i, x0, P0, obs, da, R, m, d)
        invariant IsMatrix(P, |x|, |x|) && |x| == Offset(d, c)
      {
        InjectObservation(obs[i], da[i], R, c);
        if da[i] < 0 {
          c := c + 1;
        }
      }
      assert da[..|obs|] == da;
    }

    /** Observation `z` of the loop above, with association `a`: a new
        landmark when it has none. */
    method InjectObservation(z: Vector, a: int, R: Matrix, ghost nMap: nat)
      requires Inverting(m, d) && d.feat > 0 && IsMatrix(P, |x|, |x|) && |x| == Offset(d, nMap)
      modifies this`x, this`P
      ensures (x, P) == AfterObservation(old(x), old(P), z, a, R, m, d)
      ensures IsMatrix(P, |x|, |x|) && |x| == Offset(d, if a < 0 then nMap + 1 else nMap)
    {
      if a < 0 {
        InjectLandmark(z, R, nMap);
      }
    }

    /** One new landmark from the observation `z`: the inverse observation
        model at the current state places it, the mean grows by its position
        and the covariance as `GrownCovariance` says. */
    method InjectLandmark(z: Vector, R: Matrix, ghost nMap: nat)
      requires Inverting(m, d) && d.feat > 0 && IsMatrix(P, |x|, |x|) && |x| == Offset(d, nMap)
      modifies this`x, this`P
      ensures x == old(x) + m.inverseObservation(old(x), z).yn
      ensures P == GrownCovariance(old(P), m.inverseObservation(old(x), z), R, d, |old(x)|)
    {
      var inv := m.inverseObservation(x, z);
      var idx := |x|;
      AppendLandmark(inv.yn);
      GrowCovariance(inv, R, idx, nMap);
    }

    /** The mean resized by `|yn|` entries and `yn` copied into them. */
    method AppendLandmark(yn: Vector)
      modifies this`x
      ensures x == old(x) + yn
    {
      var idx := |x|;
      x := x + seq(|yn|, _ => 0.0);
      for q := 0 to |yn|
        invariant |x| == idx + |yn| && x[..idx] == old(x)
        invariant forall k :: 0 <= k < q ==> x[idx + k] == yn[k]
      {
        x := x[idx + q := yn[q]];
      }
      assert x == old(x) + yn by {
        forall k | 0 <= k < |x|
          ensures x[k] == (old(x) + yn)[k]
        {
          if k < idx {
            assert x[k] == x[..idx][k];
          }
        }
      }
    }

    /** The covariance of `n` entries grown by one landmark: resized, the
        new rows and columns against the vehicle and then against each of
        the whole landmarks before it, and the new landmark's own block. */
    method GrowCovariance(inv: InverseObservation, R: Matrix, n: nat, ghost nMap: nat)
      requires InverseShaped(inv, d) && d.feat > 0 && IsMatrix(P, n, n) && n == Offset(d, nMap)
      modifies this`P
      ensures P == GrownCovariance(old(P), inv, R, d, n)
    {
      ghost var P0 := P;
      ghost var G := GrownCovariance(P0, inv, R, d, n);
      GrowthStarts(P0, inv, R, d, n);
      var N := n + d.feat;
      P := Resized(P, n, N);
      var Pxx := Block(P, 0, 0, d.veh, d.veh);
      MatrixExt(Pxx, Block(P0, 0, 0, d.veh, d.veh), d.veh, d.veh);
      CrossBlock(inv.dynDxv, n, 0, d.veh, P0, G);
      WholeLandmarks(d, nMap);
      var nLMs := (n - d.veh) / d.feat;
      for q := 0 to nLMs
        invariant GrowingTo(P, P0, G, n, N, Offset(d, q))
      {
        OffsetMono(d, q, nLMs);
        CrossBlock(inv.dynDxv, n, Offset(d, q), d.feat, P0, G);
      }
      var Pnn := Triple(inv.dynDxv, Pxx, inv.dynDxv, d.feat, d.veh, d.veh, d.feat);
      if inv.useJacobian {
        Pnn := Add(Pnn, Triple(inv.dynDhn, R, inv.dynDhn, d.feat, d.obs, d.obs, d.feat), d.feat, d.feat);
      } else {
        Pnn := Add(Pnn, inv.precombined, d.feat, d.feat);
      }
      assert Pnn == NewLandmarkCovariance(P0, inv, R, d);
      GrowthEnds(P, P0, inv, R, d, n);
      P := WriteBlock(P, n, n, Pnn, d.feat, d.feat);
    }

    /** The new landmark's rows against the `w` old columns at `off`:
        `dyn_dxv` times their vehicle rows, written at (n, off), and the
        transpose at (off, n). */
    method CrossBlock(dynDxv: Matrix, n: nat, off: nat, w: nat, ghost P0: Matrix, ghost G: Matrix)
      requires GrowingTo(P, P0, G, n, n + d.feat, off) && d.veh <= n && off + w <= n
      requires IsMatrix(dynDxv, d.feat, d.veh) && CrossTerms(G, P0, dynDxv, n, d)
      modifies this`P
      ensures GrowingTo(P, P0, G, n, n + d.feat, off + w)
    {
      var Pxy := Block(P, 0, off, d.veh, w);
      var Pcross := Mul(dynDxv, Pxy, d.feat, d.veh, w);
      CrossEntries(P, P0, G, dynDxv, n, off, w, d);
      CrossRowsWritten(P, P0, G, Pcross, n, off, w, d);
      P := WriteBlock(P, n, off, Pcross, d.feat, w);
      CrossColumnsWritten(P, P0, G, Pcross, n, off, w, d);
      P := WriteBlock(P, off, n, Transpose(Pcross, d.feat, w), w, d.feat);
    }

    /** The associated observations, the prediction and the Jacobians are
        what the update stage needs. */
    lemma ReadyToUpdate(R: Matrix, da: seq<int>)
      requires WellFormed(m, d) && IsMatrix(P, |x|, |x|) && Round(R)
      requires (Z, da) == m.associate(allPredictions, S, predictLMidxs)
      requires d.feat == 0 ==> |x| == d.veh
      ensures UpdateReady(|x|, P, Z, da, S, predictLMidxs, Hxs, Hys, allPredictions, m, d)
    {
      assert Associated(m.associate(allPredictions, S, predictLMidxs), |allPredictions|, d);
      forall i | 0 <= i < |predictLMidxs|
        ensures IsMatrix(Hxs[i], d.obs, d.veh) && IsMatrix(Hys[i], d.obs, d.feat)
      {
        assert ObservationJacobians(m, opts, d, x, LandmarkOf(predictLMidxs, i, d)) == Ok((Hxs[i], Hys[i]));
      }
    }

    /** Stage 7: the update by the configured method, when there are
        observations at all. */
    method Update(da: seq<int>, R: Matrix) returns (st: Status)
      requires UpdateReady(|x|, P, Z, da, S, predictLMidxs, Hxs, Hys, allPredictions, m, d)
      modifies this`x, this`P
      ensures var r := UpdateStage(old(x), old(P), Z, da, S, predictLMidxs, Hxs, Hys, allPredictions, R, m, opts, d);
        && (st.Done? <==> r.Ok?)
        && (r.Ok? ==> x == r.value.0 && P == r.value.1)
        && (r.Err? ==> st.error == r.error)
    {
      if |Z| == 0 {
        return Done;
      }
      match opts.kfMethod
      case EKFNaive =>
        st := UpdateFull(da);
      case IKFFull =>
        st := UpdateFull(da);
      case EKFAlaDavison =>
        st := UpdateDavison(da, R);
      case IKF =>
        st := Failed(ScalarIKFNotImplemented);
      case Unknown =>
        st := Failed(InvalidMethod);
    }

    /** `runOneKalmanIteration`: the checks on the state, the prediction,
        the prediction and association of the observations, and then
        `FinishIteration`. The state is untouched when a check or the
        prediction fails. */
    method RunOneIteration() returns (st: Status)
      requires Valid() && |x| < SizeT
      requires d.feat == 0 && |x| == |P| && d.veh <= |x| ==> |x| == d.veh
      requires d.feat > 0 && !ChecksDebug(opts) && d.veh <= |x| ==> (|x| - d.veh) % d.feat == 0
      modifies this`x, this`P, this`allPredictions, this`predictLMidxs, this`Hxs, this`Hys, this`S, this`Z
      ensures old(|x|) != old(|P|) ==> st == Failed(StateSizeMismatch) && x == old(x) && P == old(P)
      ensures old(|x|) == old(|P|) && old(|x|) < d.veh ==> st == Failed(StateTooShort) && x == old(x) && P == old(P)
      ensures old(|x|) == old(|P|) && d.veh <= old(|x|) && ChecksDebug(opts) && d.feat > 0 && (old(|x|) - d.veh) % d.feat != 0 ==>
        st == Failed(PartialLandmark) && x == old(x) && P == old(P)
      ensures old(|x|) == old(|P|) && d.veh <= old(|x|) && (d.feat > 0 ==> (old(|x|) - d.veh) % d.feat == 0) ==>
        var pr := Prediction(m, opts, d, old(x), old(P), old(NumberOfLandmarks()));
        pr.Err? ==> st == Failed(pr.error) && x == old(x) && P == old(P)
      ensures st.Done? ==> Valid() && old(|x|) == old(|P|) && d.veh <= old(|x|)
      ensures st.Failed? && old(|x|) == old(|P|) && d.veh <= old(|x|) && (d.feat > 0 ==> (old(|x|) - d.veh) % d.feat == 0) ==>
        var pr := Prediction(m, opts, d, old(x), old(P), old(NumberOfLandmarks()));
        pr.Err? || ObservationFailed(pr.value.0, pr.value.1, old(NumberOfLandmarks()), st.error)
      ensures st.Done? ==>
        var pr := Prediction(m, opts, d, old(x), old(P), old(NumberOfLandmarks()));
        var da := m.associate(allPredictions, S, predictLMidxs).1;
        && pr.Ok?
        && ObservedFrom(pr.value.0, pr.value.1, old(NumberOfLandmarks()))
        && UpdateReady(|pr.value.0|, pr.value.1, Z, da, S, predictLMidxs, Hxs, Hys, allPredictions, m, d)
        && FinishIteration(pr.value.0, pr.value.1, Z, da, S, predictLMidxs, Hxs, Hys, allPredictions, m.observationNoise, m, opts, d) == Ok((x, P))
    {
      if |x| != |P| {
        return Failed(StateSizeMismatch);
      }
      if |x| < d.veh {
        return Failed(StateTooShort);
      }
      if ChecksDebug(opts) && d.feat > 0 && (|x| - d.veh) % d.feat != 0 {
        return Failed(PartialLandmark);
      }
      var nMap := NumberOfLandmarks();
      if d.feat > 0 {
        LandmarkLayout();
        OffsetIsProduct(d, nMap);
      }
      st := Cycle(nMap);
    }

    /** Stages 2 to 9 on a state of `nMap` whole landmarks that passed the
        checks. */
    method Cycle(nMap: nat) returns (st: Status)
      requires Valid() && |x| == |P| && Offset(d, nMap) == |x|
      requires d.feat == 0 ==> nMap == 0
      modifies this`x, this`P, this`allPredictions, this`predictLMidxs, this`Hxs, this`Hys, this`S, this`Z
      ensures var pr := Prediction(m, opts, d, old(x), old(P), nMap);
        pr.Err? ==> st == Failed(pr.error) && x == old(x) && P == old(P)
      ensures st.Done? ==> Valid()
      ensures st.Failed? ==>
        var pr := Prediction(m, opts, d, old(x), old(P), nMap);
        pr.Err? || ObservationFailed(pr.value.0, pr.value.1, nMap, st.error)
      ensures st.Done? ==>
        var pr := Prediction(m, opts, d, old(x), old(P), nMap);
        var da := m.associate(allPredictions, S, predictLMidxs).1;
        && pr.Ok?
        && ObservedFrom(pr.value.0, pr.value.1, nMap)
        && UpdateReady(|pr.value.0|, pr.value.1, Z, da, S, predictLMidxs, Hxs, Hys, allPredictions, m, d)
        && FinishIteration(pr.value.0, pr.value.1, Z, da, S, predictLMidxs, Hxs, Hys, allPredictions, m.observationNoise, m, opts, d) == Ok((x, P))
    {
      assert d.veh + nMap * d.feat <= |x| by {
        OffsetIsProduct(d, nMap);
      }
      st := Predict(nMap);
      if st.Failed? {
        return;
      }
      st := ObserveAndFinish(nMap);
    }

    /** Stages 3 to 9, after a prediction that succeeded. */
    method ObserveAndFinish(nMap: nat) returns (st: Status)
      requires Valid() && |x| == |P| && Offset(d, nMap) == |x|
      requires d.feat == 0 ==> nMap == 0
      modifies this`x, this`P, this`allPredictions, this`predictLMidxs, this`Hxs, this`Hys, this`S, this`Z
      ensures st.Done? ==> Valid() && ObservedFrom(old(x), old(P), nMap)
      ensures st.Done? ==>
        var da := m.associate(allPredictions, S, predictLMidxs).1;
        && UpdateReady(|old(x)|, old(P), Z, da, S, predictLMidxs, Hxs, Hys, allPredictions, m, d)
        && FinishIteration(old(x), old(P), Z, da, S, predictLMidxs, Hxs, Hys, allPredictions, m.observationNoise, m, opts, d) == Ok((x, P))
      ensures st.Failed? ==> ObservationFailed(old(x), old(P), nMap, st.error)
    {
      assert d.veh + nMap * d.feat <= |x| by {
        OffsetIsProduct(d, nMap);
      }
      ghost var x0, P0 := x, P;
      var R := m.observationNoise;
      var da;
      st, da := PredictObservations(R, nMap);
      if st.Failed? {
        return;
      }
      assert ObservedFrom(x0, P0, nMap);
      ReadyToUpdate(R, da);
      assert da == m.associate(allPredictions, S, predictLMidxs).1;
      FinishIterationGrows(x, P, Z, da, S, predictLMidxs, Hxs, Hys, allPredictions, R, m, opts, d, nMap);
      st := Finish(da, R, nMap);
    }

    /** Stages 7 to 9, as `FinishIteration` says. */
    method Finish(da: seq<int>, R: Matrix, ghost nMap: nat) returns (st: Status)
      requires UpdateReady(|x|, P, Z, da, S, predictLMidxs, Hxs, Hys, allPredictions, m, d)
      requires d.veh <= |x| && (d.feat > 0 ==> |x| == Offset(d, nMap))
      modifies this`x, this`P
      ensures var r := FinishIteration(old(x), old(P), Z, da, S, predictLMidxs, Hxs, Hys, allPredictions, R, m, opts, d);
        && (st.Done? <==> r.Ok?)
        && (r.Ok? ==> x == r.value.0 && P == r.value.1)
        && (r.Err? ==> st.error == r.error)
    {
      ghost var x0, P0 := x, P;
      UpdateStageShape(x0, P0, Z, da, S, predictLMidxs, Hxs, Hys, allPredictions, R, m, opts, d);
      st := Update(da, R);
      if st.Failed? {
        return;
      }
      x := m.normalize(x);
      if |da| > 0 {
        AddNewLandmarks(da, R, nMap);
      }
    }
  }
}
