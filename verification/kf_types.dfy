/** The vocabulary of the generic Kalman filter engine (`CKalmanFilterCapable`):
    its compile-time sizes, its options, the ways a cycle can fail, and the
    user model whose hooks the engine calls. */
module KalmanTypes {
  import opened Matrices

  /** The template sizes: vehicle state, one observation, one landmark. A
      filter with `feat == 0` is a plain (non-SLAM) filter. */
  datatype Dims = Dims(veh: nat, obs: nat, feat: nat)

  /** `TKFMethod`; `Unknown` stands for any other value of the enumeration
      variable, which ends in the `default` branch. */
  datatype Method = EKFNaive | IKFFull | EKFAlaDavison | IKF | Unknown

  /** `KF_options`, plus the two build macros the filter's checks depend on:
      `debugBuild` is `_DEBUG`, `alwaysChecks` is `MRPT_ALWAYS_CHECKS_DEBUG`. */
  datatype Options = Options(
    kfMethod: Method,
    ikfIterations: nat,
    useAnalyticTransitionJacobian: bool,
    useAnalyticObservationJacobian: bool,
    debugVerifyAnalyticJacobians: bool,
    debugVerifyThreshold: real,
    debugBuild: bool,
    alwaysChecks: bool)

  /** Whether the checks guarded by `_DEBUG || MRPT_ALWAYS_CHECKS_DEBUG` run:
      the negative-variance check and `ASSERTDEB_`. */
  predicate ChecksDebug(opts: Options)
  {
    opts.debugBuild || opts.alwaysChecks
  }

  /** Every exception a cycle can end with. */
  datatype Error =
    | StateSizeMismatch          // `m_xkk.size() != m_pkk.cols()`
    | StateTooShort              // `m_xkk.size() < VEH_SIZE`
    | PartialLandmark            // debug: the landmark part is not whole landmarks
    | TransitionJacobianWrong    // analytic and numeric transition Jacobians differ
    | ObservationHxJacobianWrong // ... observation Jacobian w.r.t. the vehicle
    | ObservationHyJacobianWrong // ... observation Jacobian w.r.t. the landmark
    | LandmarkNotPredicted       // an observed landmark is not in the prediction list
    | NonSlamShape               // non-SLAM update without exactly one observation and prediction
    | DependentNoise             // debug: scalar updates with a non-diagonal `R`
    | ZeroInnovationVariance     // a scalar update would divide by a zero variance
    | NegativeVariance           // debug: a diagonal entry of `P` went negative
    | ScalarIKFNotImplemented    // `kfIKF`
    | InvalidMethod              // any other method value

  datatype Status = Done | Failed(error: Error)

  datatype Result<T> = Ok(value: T) | Err(error: Error)

  /** What `OnInverseObservationModel` returns for one new landmark. */
  datatype InverseObservation = InverseObservation(
    yn: Vector,            // the landmark's position
    dynDxv: Matrix,        // its Jacobian w.r.t. the vehicle state
    dynDhn: Matrix,        // its Jacobian w.r.t. the observation
    precombined: Matrix,   // `dyn_dhn R dyn_dhnᵀ`, when the user computes it
    useJacobian: bool)     // whether to use `dynDhn` rather than `precombined`

  /** The hooks a concrete filter overrides. A hook that the engine calls
      once per cycle on an unchanged state is a value; one that it calls on
      changing states or arguments is a function of them. */
  datatype UserModel = UserModel(
    action: Vector,                                   // OnGetAction
    transition: (Vector, Vector) -> (Vector, bool),   // OnTransitionModel: (u, xv) to (xv', skip)
    transitionJacobian: (Matrix, bool),               // OnTransitionJacobian: F and "implemented"
    transitionIncrements: Vector,                     // OnTransitionJacobianNumericGetIncrements
    transitionNoise: Matrix,                          // OnTransitionNoise: Q
    observationNoise: Matrix,                         // OnGetObservationNoise: R
    observe: (Vector, seq<nat>) -> seq<Vector>,       // OnObservationModel on state x
    observationJacobians: (Vector, nat) -> (Matrix, Matrix, bool), // OnObservationJacobians
    observationIncrements: (Vector, Vector),          // OnObservationJacobiansNumericGetIncrements
    preComputing: seq<Vector> -> seq<nat>,            // OnPreComputingPredictions
    associate: (seq<Vector>, seq<seq<Matrix>>, seq<nat>) -> (seq<Vector>, seq<int>),
                                                      // OnGetObservationsAndDataAssociation
    subtract: (Vector, Vector) -> Vector,             // OnSubstractObservationVectors
    inverseObservation: (Vector, Vector) -> InverseObservation, // OnInverseObservationModel
    normalize: Vector -> Vector,                      // OnNormalizeStateVector
    inverse: Matrix -> Matrix)                        // inverse_LLt

  /** Finite-difference increments, which the Jacobian estimator insists
      are positive. */
  predicate Positive(v: Vector)
  {
    forall k :: 0 <= k < |v| ==> v[k] > 0.0
  }

  /** The sizes the fixed-size matrix types of the hooks guarantee, and the
      hook contracts the engine relies on (most of them checked only by
      debug assertions in the engine). */
  ghost predicate WellFormed(m: UserModel, d: Dims)
  {
    && (forall u, v :: |m.transition(u, v).0| == |v|)
    && IsMatrix(m.transitionJacobian.0, d.veh, d.veh)
    && |m.transitionIncrements| == d.veh && Positive(m.transitionIncrements)
    && IsMatrix(m.transitionNoise, d.veh, d.veh)
    && IsMatrix(m.observationNoise, d.obs, d.obs)
    // one prediction of `obs` values per index asked for, except that a
    // non-SLAM filter predicts the whole system once
    && (forall v, idxs :: d.feat > 0 ==> |m.observe(v, idxs)| == |idxs|)
    && (forall v, i: nat :: |m.observe(v, [i])| == 1)
    && (forall v, idxs, k :: 0 <= k < |m.observe(v, idxs)| ==> |m.observe(v, idxs)[k]| == d.obs)
    && ObservationEstimable(m, d)
    // the heuristic proposes landmarks of the map only
    && (forall ps, k :: 0 <= k < |m.preComputing(ps)| ==> m.preComputing(ps)[k] < |ps|)
    && AssociationBounded(m, d)
    && Subtracting(m, d)
    && Inverting(m, d)
    && (forall v :: |m.normalize(v)| == |v|)
    && (forall A, n: nat :: IsMatrix(A, n, n) ==> IsMatrix(m.inverse(A), n, n))
  }

  /** The closed-form observation Jacobians have their sizes, and the
      increments of their estimates theirs, all positive. */
  ghost predicate ObservationEstimable(m: UserModel, d: Dims)
  {
    && (forall v, i :: IsMatrix(m.observationJacobians(v, i).0, d.obs, d.veh))
    && (forall v, i :: IsMatrix(m.observationJacobians(v, i).1, d.obs, d.feat))
    && |m.observationIncrements.0| == d.veh && Positive(m.observationIncrements.0)
    && |m.observationIncrements.1| == d.feat && Positive(m.observationIncrements.1)
  }

  /** The difference of an observation and a prediction is an observation. */
  ghost predicate Subtracting(m: UserModel, d: Dims)
  {
    forall a, b :: |a| == d.obs ==> |m.subtract(a, b)| == d.obs
  }

  /** One association per observation (none at all in a non-SLAM filter),
      each -1 ("new") or a landmark of the map. */
  ghost predicate AssociationBounded(m: UserModel, d: Dims)
  {
    forall ps, S, idxs :: Associated(m.associate(ps, S, idxs), |ps|, d)
  }

  predicate Associated(za: (seq<Vector>, seq<int>), nMap: nat, d: Dims)
  {
    var (Z, da) := za;
    && (|da| == |Z| || (|da| == 0 && d.feat == 0))
    && (forall k :: 0 <= k < |Z| ==> |Z[k]| == d.obs)
    && (forall k :: 0 <= k < |da| ==> -1 <= da[k] < nMap)
  }

  /** The inverse observation model places landmarks of the right size. */
  ghost predicate Inverting(m: UserModel, d: Dims)
  {
    forall x, z :: InverseShaped(m.inverseObservation(x, z), d)
  }

  predicate InverseShaped(inv: InverseObservation, d: Dims)
  {
    && |inv.yn| == d.feat
    && IsMatrix(inv.dynDxv, d.feat, d.veh)
    && IsMatrix(inv.dynDhn, d.feat, d.obs)
    && IsMatrix(inv.precombined, d.feat, d.feat)
  }

  /** Where landmark `l` starts in the state: after the vehicle and `l`
      landmarks before it. */
  function Offset(d: Dims, l: nat): (off: nat)
    ensures off >= d.veh
  {
    if l == 0 then d.veh else Offset(d, l - 1) + d.feat
  }

  /** The offset is `veh + l feat`. */
  lemma {:induction false} OffsetIsProduct(d: Dims, l: nat)
    ensures Offset(d, l) == d.veh + l * d.feat
  {
    if l > 0 {
      OffsetIsProduct(d, l - 1);
      assert l * d.feat == (l - 1) * d.feat + d.feat;
    }
  }

  /** Landmark `l` ends where landmark `l + 1` starts, so no later than
      any landmark after it. */
  lemma {:induction false} OffsetMono(d: Dims, l: nat, k: nat)
    requires l < k
    ensures Offset(d, l) + d.feat <= Offset(d, k)
  {
    if l + 1 < k {
      OffsetMono(d, l, k - 1);
    }
  }

  /** The first index of `v` in `xs` (`find_in_vector`), or none. */
  function Find(xs: seq<nat>, v: nat): (r: Option<nat>)
    ensures r.Some? <==> v in xs
    ensures r.Some? ==> r.value < |xs| && xs[r.value] == v && v !in xs[..r.value]
  {
    if |xs| == 0 then None
    else if xs[0] == v then Some(0)
    else
      match Find(xs[1..], v)
      case None => None
      case Some(i) => assert xs[1..][..i] == xs[1..i + 1]; Some(i + 1)
  }

  datatype Option<T> = None | Some(value: T)
}
