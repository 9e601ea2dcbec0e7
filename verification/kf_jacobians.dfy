/** How the filter chooses its Jacobians: the user's closed form when it is
    enabled and implemented, otherwise (or additionally, to check the closed
    form) the finite-difference estimate of the user's model. */
module KalmanJacobians {
  import opened Matrices
  import opened KalmanTypes
  import opened KalmanPrediction

  /** The only prediction a single-index observation call returns. */
  function Single(preds: seq<Vector>): Vector
  {
    if |preds| > 0 then preds[0] else []
  }

  /** `KF_aux_estimate_trans_jacobian`: the transition of a vehicle state
      under the action `u`, the skip flag ignored. */
  function TransitionOfVehicle(m: UserModel, u: Vector): Vector -> Vector
  {
    v => m.transition(u, v).0
  }

  /** `KF_aux_estimate_obs_Hx_jacobian` (`at` = 0, `len` = `veh`) and
      `KF_aux_estimate_obs_Hy_jacobian` (`at` the landmark's offset, `len` =
      `feat`): the predicted observation of landmark `l` when the slice of
      `x` at `at` is replaced by `v`. */
  function ObservationOfSlice(m: UserModel, x: Vector, l: nat, at: nat, len: nat): Vector -> Vector
    requires at + len <= |x|
  {
    v => Single(m.observe(x[..at] + v + x[at + len..], [l]))
  }

  /** Whether the closed form alone is used: it is enabled, implemented, and
      not to be checked against the estimate. */
  predicate AnalyticOnly(enabled: bool, implemented: bool, opts: Options)
  {
    enabled && implemented && !opts.debugVerifyAnalyticJacobians
  }

  /** Whether the check of a closed form against its estimate fails: the
      sum of absolute differences, not their maximum, exceeds the threshold. */
  predicate CheckFails(estimate: Matrix, analytic: Matrix, rows: nat, cols: nat, opts: Options)
  {
    opts.debugVerifyAnalyticJacobians
      && SumAbs(Sub(estimate, analytic, rows, cols), rows, cols) > opts.debugVerifyThreshold
  }

  /** The transition Jacobian `dfv_dxv` at the vehicle state `xv`. */
  function TransitionJacobian(m: UserModel, opts: Options, d: Dims, u: Vector, xv: Vector): (r: Result<Matrix>)
    requires WellFormed(m, d) && |xv| == d.veh
    ensures r.Ok? ==> IsMatrix(r.value, d.veh, d.veh)
  {
    var (Fa, implemented) := m.transitionJacobian;
    if AnalyticOnly(opts.useAnalyticTransitionJacobian, implemented, opts) then Ok(Fa)
    else
      var F := NumericJacobian(TransitionOfVehicle(m, u), xv, m.transitionIncrements, d.veh);
      if CheckFails(F, Fa, d.veh, d.veh, opts) then Err(TransitionJacobianWrong) else Ok(F)
  }

  /** The observation Jacobians `Hx`, `Hy` of landmark `l` (the whole
      system in a non-SLAM filter) at state `x`. */
  function ObservationJacobians(m: UserModel, opts: Options, d: Dims, x: Vector, l: nat): (r: Result<(Matrix, Matrix)>)
    requires ObservationEstimable(m, d) && Offset(d, l) + d.feat <= |x|
    ensures r.Ok? ==> IsMatrix(r.value.0, d.obs, d.veh) && IsMatrix(r.value.1, d.obs, d.feat)
  {
    var analytic := m.observationJacobians(x, l);
    if AnalyticOnly(opts.useAnalyticObservationJacobian, analytic.2, opts) then Ok((analytic.0, analytic.1))
    else Checked(EstimatedHx(m, d, x, l), EstimatedHy(m, d, x, l), analytic.0, analytic.1, opts, d)
  }

  /** The finite-difference estimate of `Hx`: the observation of landmark
      `l` as a function of the vehicle state. */
  function EstimatedHx(m: UserModel, d: Dims, x: Vector, l: nat): Matrix
    requires d.veh <= |x| && |m.observationIncrements.0| == d.veh && Positive(m.observationIncrements.0)
  {
    NumericJacobian(ObservationOfSlice(m, x, l, 0, d.veh), x[0..d.veh], m.observationIncrements.0, d.obs)
  }

  /** The finite-difference estimate of `Hy`: the observation of landmark
      `l` as a function of its own slice of the state. */
  function EstimatedHy(m: UserModel, d: Dims, x: Vector, l: nat): Matrix
    requires Offset(d, l) + d.feat <= |x| && |m.observationIncrements.1| == d.feat && Positive(m.observationIncrements.1)
  {
    var off := Offset(d, l);
    NumericJacobian(ObservationOfSlice(m, x, l, off, d.feat), x[off..off + d.feat], m.observationIncrements.1, d.obs)
  }

  /** The estimates `Hx`, `Hy`, unless the check of the closed form `Hxa`
      (first) or `Hya` against them fails. */
  function Checked(Hx: Matrix, Hy: Matrix, Hxa: Matrix, Hya: Matrix, opts: Options, d: Dims): (r: Result<(Matrix, Matrix)>)
    ensures r.Ok? <==> !CheckFails(Hx, Hxa, d.obs, d.veh, opts) && !CheckFails(Hy, Hya, d.obs, d.feat, opts)
    ensures r.Ok? ==> r.value == (Hx, Hy)
    ensures r.Err? ==> r.error == if CheckFails(Hx, Hxa, d.obs, d.veh, opts) then ObservationHxJacobianWrong else ObservationHyJacobianWrong
  {
    if CheckFails(Hx, Hxa, d.obs, d.veh, opts) then Err(ObservationHxJacobianWrong)
    else if CheckFails(Hy, Hya, d.obs, d.feat, opts) then Err(ObservationHyJacobianWrong)
    else Ok((Hx, Hy))
  }

  /** A closed form that equals its estimate passes the check for any
      non-negative threshold. */
  lemma {:induction false} ExactJacobianPassesCheck(J: Matrix, rows: nat, cols: nat, opts: Options)
    requires opts.debugVerifyThreshold >= 0.0
    ensures !CheckFails(J, J, rows, cols, opts)
  {
    var D := Sub(J, J, rows, cols);
    forall i: nat | i < rows
      ensures AbsRowSums(D, cols)(i) == 0.0
    {
      SumZero(cols, AbsEntries(D, i));
    }
    SumZero(rows, AbsRowSums(D, cols));
  }

  /** The three ways the transition Jacobian is chosen: the closed form
      alone when it is enabled, implemented and not checked; the estimate
      when the closed form is off and nothing is checked; and an error only
      through an enabled check that fails. */
  lemma TransitionJacobianFailsOnlyByCheck(m: UserModel, opts: Options, d: Dims, u: Vector, xv: Vector)
    requires WellFormed(m, d) && |xv| == d.veh
    ensures TransitionJacobian(m, opts, d, u, xv).Err? ==>
      opts.debugVerifyAnalyticJacobians
      && CheckFails(NumericJacobian(TransitionOfVehicle(m, u), xv, m.transitionIncrements, d.veh),
                    m.transitionJacobian.0, d.veh, d.veh, opts)
    ensures !opts.useAnalyticTransitionJacobian && !opts.debugVerifyAnalyticJacobians ==>
      TransitionJacobian(m, opts, d, u, xv)
        == Ok(NumericJacobian(TransitionOfVehicle(m, u), xv, m.transitionIncrements, d.veh))
    ensures AnalyticOnly(opts.useAnalyticTransitionJacobian, m.transitionJacobian.1, opts) ==>
      TransitionJacobian(m, opts, d, u, xv) == Ok(m.transitionJacobian.0)
  {
  }
}
