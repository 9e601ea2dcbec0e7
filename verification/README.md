# A verified model of the MRPT core components

This project models, in Dafny, the following parts of the Mobile Robot
Programming Toolkit (MRPT). It proves properties of each model.

- **The generic Kalman filter engine** (`CKalmanFilterCapable`). This is one
  `runOneKalmanIteration` cycle:
  - the prediction of the mean and the covariance, with the transition
    Jacobian taken in closed form or estimated by central differences and
    optionally checked against the closed form;
  - the predicted observations and their Jacobians;
  - the innovation covariance `S` as a grid of blocks, with the
    data-association retry loop;
  - the full EKF/IKF update and the scalar update "a la Davison";
  - normalisation, and the injection of new landmarks.

  The filter is a class whose fields (mean, covariance, prediction list,
  Jacobian lists, `S`, observations) are updated in place, stage by stage.
  Each method is proved against a function of the old state. The functions
  carry the properties: sizes kept, symmetry kept, errors and where they
  arise, the retry loop ending, and landmarks only ever appended.
- **CSparse**:
  - `cs_norm`: the 1-norm of a compressed-column matrix;
  - `cs_ereach`: the nonzero pattern of row `k` of a Cholesky factor, found
    by climbing the elimination tree with marks.
- **vision_utils**:
  - `generateMask`: clearing windows around matched features in two masks;
  - `cloudsToMatchedList`: pairing landmarks of two clouds by identifier;
  - `defaultIntrinsicParamsMatrix`: the calibration of the two known cameras.
- **net_utils**: the string logic of `http_request`, which covers:
  - splitting the URL;
  - the request headers;
  - parsing the response headers;
  - chunked transfer decoding, done in place;
  - the result code.

  It also covers the numeric-address shortcut of the DNS lookup.
- **CMetricMapBuilderRBPF**:
  - the rule that decides between map update and localization;
  - the odometry accumulators;
  - `clear`;
  - the choice of the most likely particle.
- **CPoseOrPoint**: the coordinate accessors and the squared distances.
- **TTwist3D**: indexed and `(row, col)` access to the six components of a
  velocity, scaling, the conversions to and from a vector, and `rotated`
  (the rotation itself a parameter); two twists with the same six
  components are the same value.
- **CEdgeCounter**: the bookkeeping of the graph-SLAM edge counter.

Source paths are relative to the repository root.

## Model

| member | source | states |
|---|---|---|
| `KalmanTypes.Offset` | libs/bayes/include/mrpt/bayes/CKalmanFilterCapable_impl.h:286-287 | landmark `l` starts after the vehicle state |
| `KalmanTypes.OffsetIsProduct` | libs/bayes/include/mrpt/bayes/CKalmanFilterCapable_impl.h:286-287 | the offset of landmark `l` is `VEH_SIZE + l * FEAT_SIZE` |
| `KalmanTypes.OffsetMono` | libs/bayes/include/mrpt/bayes/CKalmanFilterCapable_impl.h:148-157 | a landmark's block ends no later than any later landmark's block starts |
| `KalmanTypes.Find` | libs/bayes/include/mrpt/bayes/CKalmanFilterCapable_impl.h:453-456 | `find_in_vector`: the first index holding the value, or none exactly when it is absent |
| `KalmanJacobians.TransitionJacobian` | libs/bayes/include/mrpt/bayes/CKalmanFilterCapable_impl.h:83-128 | the closed-form transition Jacobian when it is enabled, implemented and not checked; otherwise the estimate, unless the check against the closed form fails; a result is `VEH_SIZE` square |
| `KalmanJacobians.TransitionJacobianFailsOnlyByCheck` | libs/bayes/include/mrpt/bayes/CKalmanFilterCapable_impl.h:83-128 | the three-way choice: the closed form when it is enabled, implemented and not checked; the estimate when the closed form is disabled and nothing is checked; a failure only when checking is on and the estimate differs from the closed form by more than the threshold |
| `KalmanJacobians.ObservationJacobians` | libs/bayes/include/mrpt/bayes/CKalmanFilterCapable_impl.h:275-356 | a result has `Hx` of `OBS_SIZE` by `VEH_SIZE` and `Hy` of `OBS_SIZE` by `FEAT_SIZE` |
| `KalmanJacobians.Checked` | libs/bayes/include/mrpt/bayes/CKalmanFilterCapable_impl.h:324-355 | the estimates pass exactly when neither check fails; the `Hx` check is made first and decides the error |
| `KalmanJacobians.ExactJacobianPassesCheck` | libs/bayes/include/mrpt/bayes/CKalmanFilterCapable_impl.h:114-115 | a closed form equal to its estimate passes any non-negative threshold |
| `KalmanPrediction.NumericJacobian` | libs/bayes/include/mrpt/bayes/CKalmanFilterCapable_impl.h:101-108 | entry (r, c) of the estimate is the central difference of output `r` along input `c` |
| `KalmanPrediction.NumericJacobianOfAffine` | libs/bayes/include/mrpt/bayes/CKalmanFilterCapable_impl.h:101-108 | the central-difference estimate of an affine map is exactly its matrix |
| `KalmanPrediction.AffineDifference` | libs/bayes/include/mrpt/bayes/CKalmanFilterCapable_impl.h:101-108 | each central difference of an affine map is the matching matrix entry |
| `KalmanPrediction.PredictedCovariance` | libs/bayes/include/mrpt/bayes/CKalmanFilterCapable_impl.h:135-158 | the predicted covariance has the same size and, entry by entry, is the prediction rule: `F Pxx Fᵀ + Q`, `F` times the vehicle rows of the landmark columns reached so far, their transposes, the rest kept |
| `KalmanPrediction.PredictionStep` | libs/bayes/include/mrpt/bayes/CKalmanFilterCapable_impl.h:147-158 | one turn of the landmark loop writes `F P_xy` and its transpose, taking the prediction one landmark further |
| `KalmanPrediction.PredictionKeepsSymmetry` | libs/bayes/include/mrpt/bayes/CKalmanFilterCapable_impl.h:135-158 | the prediction keeps a symmetric covariance symmetric when `Q` is symmetric |
| `KalmanPrediction.IdentityPredictionKeepsCovariance` | libs/bayes/include/mrpt/bayes/CKalmanFilterCapable_impl.h:135-158 | an identity transition with zero noise leaves a symmetric covariance unchanged |
| `KalmanInnovation.CrossInnovation` | libs/bayes/include/mrpt/bayes/CKalmanFilterCapable_impl.h:378-399 | `Sij` is `obs` square and is the sum of the four Jacobian-weighted covariance blocks of the vehicle and landmarks `li`, `lj` |
| `KalmanInnovation.InnovationGrid` | libs/bayes/include/mrpt/bayes/CKalmanFilterCapable_impl.h:367-415 | the SLAM innovation is an N-by-N grid of `obs`-square blocks: computed above the diagonal, copied transposed below it, `R` added to the diagonal |
| `KalmanInnovation.InnovationGridIsFullProduct` | libs/bayes/include/mrpt/bayes/CKalmanFilterCapable_impl.h:369-415 | for a symmetric covariance, every block of the grid is the full product block `Hi P Hjᵀ` (plus `R` on the diagonal), so copying the transpose loses nothing |
| `KalmanInnovation.CrossInnovationTranspose` | libs/bayes/include/mrpt/bayes/CKalmanFilterCapable_impl.h:405-407 | for a symmetric covariance, `Sji` is the transpose of `Sij` |
| `KalmanInnovation.InnovationGridSymmetric` | libs/bayes/include/mrpt/bayes/CKalmanFilterCapable_impl.h:367-415 | for symmetric `P` and `R`, the grid is block-symmetric |
| `KalmanInnovation.NonSlamInnovation` | libs/bayes/include/mrpt/bayes/CKalmanFilterCapable_impl.h:416-424 | the non-SLAM innovation is one `obs`-square block |
| `KalmanInnovation.NonSlamInnovationSymmetric` | libs/bayes/include/mrpt/bayes/CKalmanFilterCapable_impl.h:416-424 | for symmetric `P` and `R`, the non-SLAM innovation is symmetric |
| `KalmanInnovation.Missing` | libs/bayes/include/mrpt/bayes/CKalmanFilterCapable_impl.h:446-459 | the landmark associations that are not in the prediction list, never one that is |
| `KalmanInnovation.MissingIsExact` | libs/bayes/include/mrpt/bayes/CKalmanFilterCapable_impl.h:446-459 | every landmark association is predicted or reported missing, and every reported landmark is an association that was not predicted |
| `KalmanInnovation.AppendingMissingCloses` | libs/bayes/include/mrpt/bayes/CKalmanFilterCapable_impl.h:247-464 | once the missing landmarks are appended, none is missing: the retry loop runs at most twice on one association |
| `KalmanInnovation.MissingNone` | libs/bayes/include/mrpt/bayes/CKalmanFilterCapable_impl.h:446-464 | nothing is reported missing when every association is predicted, which ends the loop |
| `KalmanUpdate.Kept` | libs/bayes/include/mrpt/bayes/CKalmanFilterCapable_impl.h:487-500 | the kept associations are exactly those other than -1 |
| `KalmanUpdate.Known` | libs/bayes/include/mrpt/bayes/CKalmanFilterCapable_impl.h:510 | no association names a landmark exactly when the count is zero |
| `KalmanUpdate.KeptCountsKnown` | libs/bayes/include/mrpt/bayes/CKalmanFilterCapable_impl.h:487-510 | with associations of -1 or more, the number of updated landmarks equals the number of known associations |
| `KalmanUpdate.ObservationRows` | libs/bayes/include/mrpt/bayes/CKalmanFilterCapable_impl.h:555-580 | one observed landmark adds `obs` rows of the full state width to `H` |
| `KalmanUpdate.ObservedUpTo` | libs/bayes/include/mrpt/bayes/CKalmanFilterCapable_impl.h:528-592 | `H` has `obs` rows per observed landmark and `y` as many entries; one block per known association; an association missing from the prediction list is the only error |
| `KalmanUpdate.ObservedUpToStops` | libs/bayes/include/mrpt/bayes/CKalmanFilterCapable_impl.h:545-549 | the first unpredicted landmark decides the error: later associations do not change it |
| `KalmanUpdate.AllPredictedObserves` | libs/bayes/include/mrpt/bayes/CKalmanFilterCapable_impl.h:446-464 | when the data-association retry has left nothing missing, the full update finds no unpredicted landmark |
| `KalmanUpdate.ObservedInnovation` | libs/bayes/include/mrpt/bayes/CKalmanFilterCapable_impl.h:590-592 | the observed innovation has `obs` rows and columns per observed landmark |
| `KalmanUpdate.ObservedInnovationSymmetric` | libs/bayes/include/mrpt/bayes/CKalmanFilterCapable_impl.h:590-592 | the observed part of a block-symmetric innovation is symmetric, in any order of observation |
| `KalmanUpdate.Gain` | libs/bayes/include/mrpt/bayes/CKalmanFilterCapable_impl.h:617-625 | `K = P Hᵀ S⁻¹` has one row per state entry and one column per observed row |
| `KalmanUpdate.FirstStepIsEkf` | libs/bayes/include/mrpt/bayes/CKalmanFilterCapable_impl.h:630-647 | the first IKF step from the prediction is the EKF mean update `x + K y` |
| `KalmanUpdate.UpdatedMeanIsIterated` | libs/bayes/include/mrpt/bayes/CKalmanFilterCapable_impl.h:630-651 | the updated mean is always the IKF iterate, the single-iteration branch included |
| `KalmanUpdate.UpdatedCovariance` | libs/bayes/include/mrpt/bayes/CKalmanFilterCapable_impl.h:656-688 | `(I - K H) P` is square of the state size |
| `KalmanUpdate.ZeroGainKeepsCovariance` | libs/bayes/include/mrpt/bayes/CKalmanFilterCapable_impl.h:656-688 | a zero gain leaves the covariance unchanged |
| `KalmanUpdate.FullUpdate` | libs/bayes/include/mrpt/bayes/CKalmanFilterCapable_impl.h:481-692 | a successful full update keeps the sizes of the mean and the covariance |
| `KalmanUpdate.FullUpdateSkips` | libs/bayes/include/mrpt/bayes/CKalmanFilterCapable_impl.h:510 | without an association to a known landmark, the full update changes nothing |
| `KalmanUpdate.ScalarVarianceIsInnovationDiagonal` | libs/bayes/include/mrpt/bayes/CKalmanFilterCapable_impl.h:796-826 | for a symmetric covariance, the scalar variance `R(j,j) + term1 + 2 term2 + term3` is the j-th diagonal entry of `Sii + R` |
| `KalmanUpdate.ScalarGain` | libs/bayes/include/mrpt/bayes/CKalmanFilterCapable_impl.h:831-848 | the scalar gain has one entry per state entry |
| `KalmanUpdate.DavisonCovarianceSymmetric` | libs/bayes/include/mrpt/bayes/CKalmanFilterCapable_impl.h:857-866 | the mirrored downdate is always symmetric |
| `KalmanUpdate.DavisonCovarianceIsDowndate` | libs/bayes/include/mrpt/bayes/CKalmanFilterCapable_impl.h:857-866 | for a symmetric covariance, the mirrored downdate is the full `P - s K Kᵀ` |
| `KalmanUpdate.ScalarUpdate` | libs/bayes/include/mrpt/bayes/CKalmanFilterCapable_impl.h:777-878 | a successful scalar update keeps the sizes and leaves a symmetric covariance |
| `KalmanUpdate.ScalarUpdates` | libs/bayes/include/mrpt/bayes/CKalmanFilterCapable_impl.h:755-882 | the updates of one observation keep the sizes; after at least one, the covariance is symmetric |
| `KalmanUpdate.ScalarUpdatesStop` | libs/bayes/include/mrpt/bayes/CKalmanFilterCapable_impl.h:755-882 | a failed scalar update ends the observation's updates with its error |
| `KalmanUpdate.DavisonObservation` | libs/bayes/include/mrpt/bayes/CKalmanFilterCapable_impl.h:706-882 | the updates of one observation keep the sizes of the mean and the covariance |
| `KalmanUpdate.DavisonUpTo` | libs/bayes/include/mrpt/bayes/CKalmanFilterCapable_impl.h:697-886 | the scalar updates of all observations keep the sizes |
| `KalmanUpdate.DavisonUpToStops` | libs/bayes/include/mrpt/bayes/CKalmanFilterCapable_impl.h:697-886 | a failed observation ends the scalar updates with its error |
| `KalmanUpdate.DavisonKeepsSymmetry` | libs/bayes/include/mrpt/bayes/CKalmanFilterCapable_impl.h:697-886 | the scalar updates keep a symmetric covariance symmetric |
| `KalmanUpdate.UpdateStage` | libs/bayes/include/mrpt/bayes/CKalmanFilterCapable_impl.h:472-898 | the update keeps the size of the mean; the scalar IKF and any unknown method fail with their own errors |
| `KalmanUpdate.UpdateStageShape` | libs/bayes/include/mrpt/bayes/CKalmanFilterCapable_impl.h:472-898 | the update keeps the covariance square, and symmetric under the scalar method |
| `KalmanLandmarks.NewLandmarkCovariance` | libs/bayes/include/mrpt/bayes/CKalmanFilterCapable_impl.h:1085-1093 | the new landmark's own block is `FEAT_SIZE` square |
| `KalmanLandmarks.GrownCovariance` | libs/bayes/include/mrpt/bayes/CKalmanFilterCapable_impl.h:1052-1093 | the grown covariance has `FEAT_SIZE` more rows and columns |
| `KalmanLandmarks.GrowKeepsSymmetry` | libs/bayes/include/mrpt/bayes/CKalmanFilterCapable_impl.h:1052-1093 | growing keeps a symmetric covariance symmetric when `R`, or the user's precombined term, is symmetric |
| `KalmanLandmarks.Resized` | libs/bayes/include/mrpt/bayes/CKalmanFilterCapable_impl.h:1052 | `setSize` keeps the old entries in the larger matrix |
| `KalmanLandmarks.NewCount` | libs/bayes/include/mrpt/bayes/CKalmanFilterCapable_impl.h:1000-1003 | no more new landmarks than observations |
| `KalmanLandmarks.AfterObservation` | libs/bayes/include/mrpt/bayes/CKalmanFilterCapable_impl.h:1003-1097 | an observation without an association appends `FEAT_SIZE` entries to the mean, any other appends none; the covariance stays square |
| `KalmanLandmarks.Injected` | libs/bayes/include/mrpt/bayes/CKalmanFilterCapable_impl.h:1000-1097 | after `k` observations the state holds one more landmark per observation without an association, with a square covariance |
| `KalmanLandmarks.AfterObservationKeepsPrefix` | libs/bayes/include/mrpt/bayes/CKalmanFilterCapable_impl.h:1038-1093 | one observation keeps the leading part of the mean and of the covariance |
| `KalmanLandmarks.InjectedKeepsPrefix` | libs/bayes/include/mrpt/bayes/CKalmanFilterCapable_impl.h:1000-1097 | injection only appends: the old mean and covariance are the leading part of the new ones |
| `KalmanLandmarks.InjectedKeepsSymmetry` | libs/bayes/include/mrpt/bayes/CKalmanFilterCapable_impl.h:1000-1097 | injection keeps a symmetric covariance symmetric |
| `KalmanLandmarks.WithNewLandmarks` | libs/bayes/include/mrpt/bayes/CKalmanFilterCapable_impl.h:989-1113 | the state grows by one landmark per observation without an association; a filter without landmarks adds none |
| `KalmanLandmarks.NewLandmarksSize` | libs/bayes/include/mrpt/bayes/CKalmanFilterCapable_impl.h:989-1113 | the mean grows by `FEAT_SIZE` times the number of new landmarks, and the covariance stays square |
| `KalmanInnovation.GridBlock` | libs/bayes/include/mrpt/bayes/CKalmanFilterCapable_impl.h:394-413 | one block of the innovation grid is `OBS_SIZE` square |
| `KalmanUpdate.Iterated` | libs/bayes/include/mrpt/bayes/CKalmanFilterCapable_impl.h:630-651 | the IKF iterate keeps the size of the mean |
| `KalmanUpdate.Linearize` | libs/bayes/include/mrpt/bayes/CKalmanFilterCapable_impl.h:510-611 | `H` has one row per observed innovation entry and the full state width |
| `KalmanUpdate.DavisonCovariance` | libs/bayes/include/mrpt/bayes/CKalmanFilterCapable_impl.h:857-866 | the downdated covariance keeps its size |
| `KalmanUpdate.Gained` | libs/bayes/include/mrpt/bayes/CKalmanFilterCapable_impl.h:852-853 | the gained mean keeps its size |
| `KalmanFilter.PredictionFacts` | libs/bayes/include/mrpt/bayes/CKalmanFilterCapable_impl.h:61-167 | a prediction keeps the sizes of the mean and the covariance, keeps the covariance symmetric for a symmetric `Q`, and changes no entry between two landmarks |
| `KalmanFilter.ColumnOfDifferences` | libs/bayes/include/mrpt/bayes/CKalmanFilterCapable_impl.h:297-304 | the two probes of the auxiliary estimators, differenced and halved over the increment, give the matching column of the central-difference estimate |
| `KalmanFilter.FromColumns` | libs/bayes/include/mrpt/bayes/CKalmanFilterCapable_impl.h:297-304 | the estimate assembled from its columns has entry (r, c) from row r of column c |
| `KalmanFilter.NextColumn` | libs/bayes/include/mrpt/bayes/CKalmanFilterCapable_impl.h:297-304 | a column appended in order extends the columns of the estimate computed so far |
| `KalmanFilter.ColumnsOfEstimate` | libs/bayes/include/mrpt/bayes/CKalmanFilterCapable_impl.h:297-304 | all columns computed in order assemble to the estimate |
| `KalmanFilter.Splice` | libs/bayes/include/mrpt/bayes/CKalmanFilterCapable_impl.h:949-981 | replacing the slice at `at` by `v` gives the state the estimator's function reads |
| `KalmanFilter.Restore` | libs/bayes/include/mrpt/bayes/CKalmanFilterCapable_impl.h:305-308 | copying the saved slice back restores the state |
| `KalmanFilter.FitsBelow` | libs/bayes/include/mrpt/bayes/CKalmanFilterCapable_impl.h:192-199 | landmarks below the map size all fit in the state |
| `KalmanFilter.JacobiansMatchGrow` | libs/bayes/include/mrpt/bayes/CKalmanFilterCapable_impl.h:249-267 | appending to the prediction list keeps the Jacobians already computed |
| `KalmanFilter.WholeLandmarks` | libs/bayes/include/mrpt/bayes/CKalmanFilterCapable_impl.h:1065-1079 | the state of `c` whole landmarks holds `(n - VEH_SIZE) / FEAT_SIZE = c` of them |
| `KalmanFilter.OffsetAdd` | libs/bayes/include/mrpt/bayes/CKalmanFilterCapable_impl.h:1015-1016 | `a` landmarks and `b` more take the room of `a + b` |
| `KalmanFilter.FinishIterationGrows` | libs/bayes/include/mrpt/bayes/CKalmanFilterCapable_impl.h:472-915 | update, normalisation and injection grow the state by one landmark per observation without an association, with a square covariance |
| `KalmanFilter.IdentityMinus` | libs/bayes/include/mrpt/bayes/CKalmanFilterCapable_impl.h:662-682 | the in-place loop turns `K H` into `I - K H` |
| `KalmanFilter.MirrorStep` | libs/bayes/include/mrpt/bayes/CKalmanFilterCapable_impl.h:394-408 | writing block (i, j) and its transposed mirror extends the finished part of row `i` by one column |
| `KalmanFilter.KalmanFilterCapable.LandmarkLayout` | libs/bayes/include/mrpt/bayes/CKalmanFilterCapable_impl.h:1118-1123 | a state of whole landmarks holds `getNumberOfLandmarksInTheMap()` of them |
| `KalmanFilter.KalmanFilterCapable.NumberOfLandmarks` | libs/bayes/include/mrpt/bayes/CKalmanFilterCapable_impl.h:1115-1131 | 0 without landmarks; otherwise the number of whole landmarks the state holds after the vehicle: they fit, and one more would not |
| `KalmanFilter.KalmanFilterCapable.IsMapEmpty` | libs/bayes/include/mrpt/bayes/CKalmanFilterCapable_impl.h:1133-1149 | an empty map has no landmarks |
| `KalmanFilter.KalmanFilterCapable.MapEmptyIffNoLandmarks` | libs/bayes/include/mrpt/bayes/CKalmanFilterCapable_impl.h:1118-1149 | on a state of whole landmarks, `isMapEmpty()` holds exactly when the landmark count is zero |
| `KalmanFilter.KalmanFilterCapable.ShortStateWraps` | libs/bayes/include/mrpt/bayes/CKalmanFilterCapable_impl.h:1118-1123 | a state shorter than the vehicle gives a wrapped, huge count rather than a negative one |
| `KalmanFilter.KalmanFilterCapable.Predict` | libs/bayes/include/mrpt/bayes/CKalmanFilterCapable_impl.h:61-167 | the state after the prediction stage is `Prediction` of the old state; a failure leaves the state unchanged |
| `KalmanFilter.KalmanFilterCapable.PredictCovariance` | libs/bayes/include/mrpt/bayes/CKalmanFilterCapable_impl.h:135-158 | the landmark loop leaves the covariance `PredictedCovariance` of the old one |
| `KalmanFilter.KalmanFilterCapable.PredictVehicleBlock` | libs/bayes/include/mrpt/bayes/CKalmanFilterCapable_impl.h:139-141 | the vehicle block becomes `F Pxx Fᵀ + Q`, the rest kept |
| `KalmanFilter.KalmanFilterCapable.PredictLandmarkRows` | libs/bayes/include/mrpt/bayes/CKalmanFilterCapable_impl.h:147-158 | one landmark's rows and columns extend the predicted part by that landmark |
| `KalmanFilter.KalmanFilterCapable.OverwriteVehicle` | libs/bayes/include/mrpt/bayes/CKalmanFilterCapable_impl.h:163-164 | the vehicle part of the mean becomes the new vehicle state, the landmarks kept |
| `KalmanFilter.KalmanFilterCapable.AuxEstimateObs` | libs/bayes/include/mrpt/bayes/CKalmanFilterCapable_impl.h:949-981 | the slice of the state is overwritten and the observation is predicted from the changed state |
| `KalmanFilter.KalmanFilterCapable.EstimateObservationJacobian` | libs/bayes/include/mrpt/bayes/CKalmanFilterCapable_impl.h:297-304 | the estimate is the central-difference Jacobian of the observation with respect to the slice; the state outside the slice is not touched |
| `KalmanFilter.KalmanFilterCapable.EstimateColumn` | libs/bayes/include/mrpt/bayes/CKalmanFilterCapable_impl.h:297-304 | one column of the estimate from the two probes, the state outside the slice kept |
| `KalmanFilter.KalmanFilterCapable.Probe` | libs/bayes/include/mrpt/bayes/CKalmanFilterCapable_impl.h:949-981 | a probe returns the estimator's function at `v` and keeps the state outside the slice |
| `KalmanFilter.KalmanFilterCapable.ObservationJacobiansAt` | libs/bayes/include/mrpt/bayes/CKalmanFilterCapable_impl.h:275-356 | the Jacobians of one landmark are `ObservationJacobians` of the state, which is as before |
| `KalmanFilter.KalmanFilterCapable.ObservationEstimates` | libs/bayes/include/mrpt/bayes/CKalmanFilterCapable_impl.h:284-322 | both estimates are taken from the unchanged state, and the state is restored after each |
| `KalmanFilter.KalmanFilterCapable.BuildJacobians` | libs/bayes/include/mrpt/bayes/CKalmanFilterCapable_impl.h:269-357 | the Jacobian lists match the whole prediction list, or the error is that of some landmark's Jacobians; the state is as before |
| `KalmanFilter.KalmanFilterCapable.NextJacobians` | libs/bayes/include/mrpt/bayes/CKalmanFilterCapable_impl.h:269-357 | entry `i`'s Jacobians are appended, or its error is returned |
| `KalmanFilter.KalmanFilterCapable.BuildInnovation` | libs/bayes/include/mrpt/bayes/CKalmanFilterCapable_impl.h:361-424 | the innovation is `InnovationGrid`, or the single non-SLAM block |
| `KalmanFilter.KalmanFilterCapable.InnovationRow` | libs/bayes/include/mrpt/bayes/CKalmanFilterCapable_impl.h:376-414 | after row `i`, every block in the first `i + 1` rows and columns is final |
| `KalmanFilter.KalmanFilterCapable.MirrorRow` | libs/bayes/include/mrpt/bayes/CKalmanFilterCapable_impl.h:383-408 | the blocks of row `i` and their mirrors are written |
| `KalmanFilter.KalmanFilterCapable.CollectMissing` | libs/bayes/include/mrpt/bayes/CKalmanFilterCapable_impl.h:446-459 | the collected landmarks are `Missing` of the association and the prediction list |
| `KalmanFilter.KalmanFilterCapable.PredictObservations` | libs/bayes/include/mrpt/bayes/CKalmanFilterCapable_impl.h:178-464 | all landmarks are predicted, the prediction list starts with the user's choice, and on success the last round's Jacobians, innovation and association are in place with no association missing from the list |
| `KalmanFilter.KalmanFilterCapable.RetryAssociation` | libs/bayes/include/mrpt/bayes/CKalmanFilterCapable_impl.h:247-464 | the retry loop terminates, the list only grows with landmarks of the map, and on success nothing is missing |
| `KalmanFilter.KalmanFilterCapable.RetryRound` | libs/bayes/include/mrpt/bayes/CKalmanFilterCapable_impl.h:247-464 | a round that leaves landmarks missing strictly grows the set of listed landmarks |
| `KalmanFilter.KalmanFilterCapable.AssociationRound` | libs/bayes/include/mrpt/bayes/CKalmanFilterCapable_impl.h:247-464 | one round appends the missing landmarks, builds their Jacobians and the innovation, and returns what the new association misses |
| `KalmanFilter.KalmanFilterCapable.ObservedRows` | libs/bayes/include/mrpt/bayes/CKalmanFilterCapable_impl.h:528-592 | the loop over the associations computes `ObservedUpTo` of all of them |
| `KalmanFilter.KalmanFilterCapable.ObserveEntry` | libs/bayes/include/mrpt/bayes/CKalmanFilterCapable_impl.h:537-586 | one association extends the observed part, and an unpredicted landmark ends the walk with its error |
| `KalmanFilter.KalmanFilterCapable.UpdateFull` | libs/bayes/include/mrpt/bayes/CKalmanFilterCapable_impl.h:481-692 | the state after the full update is `FullUpdate` of the old one; a failure leaves it unchanged |
| `KalmanFilter.KalmanFilterCapable.Linearized` | libs/bayes/include/mrpt/bayes/CKalmanFilterCapable_impl.h:510-611 | the observed part of the problem is `Linearize` of the state |
| `KalmanFilter.KalmanFilterCapable.Iterate` | libs/bayes/include/mrpt/bayes/CKalmanFilterCapable_impl.h:512-689 | the iterations leave the mean `UpdatedMean` and the covariance `(I - K H) P` |
| `KalmanFilter.KalmanFilterCapable.UpdateCovariance` | libs/bayes/include/mrpt/bayes/CKalmanFilterCapable_impl.h:656-688 | the covariance becomes `(I - K H) P` |
| `KalmanFilter.KalmanFilterCapable.UpdateDavison` | libs/bayes/include/mrpt/bayes/CKalmanFilterCapable_impl.h:697-886 | the state after the scalar updates is `DavisonUpTo` of the old one, or the first error |
| `KalmanFilter.KalmanFilterCapable.DavisonObservationStep` | libs/bayes/include/mrpt/bayes/CKalmanFilterCapable_impl.h:706-882 | one observation's updates are `DavisonObservation` of the state |
| `KalmanFilter.KalmanFilterCapable.ScalarUpdatesOf` | libs/bayes/include/mrpt/bayes/CKalmanFilterCapable_impl.h:755-882 | the component loop computes `ScalarUpdates`, stopping at the first error |
| `KalmanFilter.KalmanFilterCapable.ScalarStepFrom` | libs/bayes/include/mrpt/bayes/CKalmanFilterCapable_impl.h:755-882 | update `j` extends the successful updates by one, or decides the observation's error |
| `KalmanFilter.KalmanFilterCapable.ScalarStep` | libs/bayes/include/mrpt/bayes/CKalmanFilterCapable_impl.h:755-882 | one scalar update is `ScalarUpdate` of the state |
| `KalmanFilter.KalmanFilterCapable.IndependentNoise` | libs/bayes/include/mrpt/bayes/CKalmanFilterCapable_impl.h:777-794 | the debug check passes exactly when `R` is diagonal |
| `KalmanFilter.KalmanFilterCapable.Variance` | libs/bayes/include/mrpt/bayes/CKalmanFilterCapable_impl.h:796-826 | the accumulated variance is `ScalarVariance` |
| `KalmanFilter.KalmanFilterCapable.NestedTerm` | libs/bayes/include/mrpt/bayes/CKalmanFilterCapable_impl.h:799-826 | the nested accumulation is the nested sum over the block |
| `KalmanFilter.KalmanFilterCapable.InnerTerm` | libs/bayes/include/mrpt/bayes/CKalmanFilterCapable_impl.h:799-826 | the inner accumulation is the row-by-block sum |
| `KalmanFilter.KalmanFilterCapable.GainVector` | libs/bayes/include/mrpt/bayes/CKalmanFilterCapable_impl.h:831-848 | the gain loop computes `ScalarGain` |
| `KalmanFilter.KalmanFilterCapable.ApplyGain` | libs/bayes/include/mrpt/bayes/CKalmanFilterCapable_impl.h:852-853 | the mean becomes `x + K y_j` |
| `KalmanFilter.KalmanFilterCapable.Downdate` | libs/bayes/include/mrpt/bayes/CKalmanFilterCapable_impl.h:857-878 | the half-matrix downdate gives `DavisonCovariance`, and fails exactly when a build with `_DEBUG` or `MRPT_ALWAYS_CHECKS_DEBUG` finds a negative variance |
| `KalmanFilter.KalmanFilterCapable.DowndateEntry` | libs/bayes/include/mrpt/bayes/CKalmanFilterCapable_impl.h:862-866 | one entry downdated and mirrored extends the downdated part |
| `KalmanFilter.KalmanFilterCapable.AddNewLandmarks` | libs/bayes/include/mrpt/bayes/CKalmanFilterCapable_impl.h:989-1113 | the state after injection is `WithNewLandmarks` of the old one |
| `KalmanFilter.KalmanFilterCapable.InjectObservation` | libs/bayes/include/mrpt/bayes/CKalmanFilterCapable_impl.h:1000-1097 | one observation is `AfterObservation` of the state, a new landmark only without an association |
| `KalmanFilter.KalmanFilterCapable.InjectLandmark` | libs/bayes/include/mrpt/bayes/CKalmanFilterCapable_impl.h:1015-1093 | the mean grows by the placed landmark and the covariance as `GrownCovariance` says |
| `KalmanFilter.KalmanFilterCapable.AppendLandmark` | libs/bayes/include/mrpt/bayes/CKalmanFilterCapable_impl.h:1038-1043 | the mean grows by the new landmark's entries |
| `KalmanFilter.KalmanFilterCapable.GrowCovariance` | libs/bayes/include/mrpt/bayes/CKalmanFilterCapable_impl.h:1052-1093 | resizing, the cross terms and the new block give `GrownCovariance` |
| `KalmanFilter.KalmanFilterCapable.CrossBlock` | libs/bayes/include/mrpt/bayes/CKalmanFilterCapable_impl.h:1056-1079 | one block of cross terms and its transpose extend the grown part |
| `KalmanFilter.KalmanFilterCapable.ReadyToUpdate` | libs/bayes/include/mrpt/bayes/CKalmanFilterCapable_impl.h:433-476 | after a successful association round, the update's preconditions hold |
| `KalmanFilter.KalmanFilterCapable.Update` | libs/bayes/include/mrpt/bayes/CKalmanFilterCapable_impl.h:472-898 | the state after the update is `UpdateStage` of the old one |
| `KalmanFilter.KalmanFilterCapable.RunOneIteration` | libs/bayes/include/mrpt/bayes/CKalmanFilterCapable_impl.h:28-931 | each failed check raises its own error with the state untouched, a failed prediction too; any later failure is a landmark's Jacobian error or the error of `FinishIteration` after a finished observation stage; a cycle that completes has predicted the observations of every landmark of the map, kept the user's pick at the head of the prediction list, built the Jacobians and the innovation grid of the predicted state, holds the observations and association the data association returned, with no unpredicted landmark, and leaves `FinishIteration` of the prediction on those observations |
| `KalmanFilter.KalmanFilterCapable.Cycle` | libs/bayes/include/mrpt/bayes/CKalmanFilterCapable_impl.h:61-919 | a failed prediction leaves the state untouched, and a later failure is a landmark's Jacobian error or `FinishIteration`'s; a completed cycle has finished the observation stage on the predicted state (observations of all landmarks, Jacobians, innovation grid, the observations and association the data association returned, nothing unpredicted) and leaves `FinishIteration` of the prediction on those observations |
| `KalmanFilter.KalmanFilterCapable.ObserveAndFinish` | libs/bayes/include/mrpt/bayes/CKalmanFilterCapable_impl.h:170-919 | on the state it starts from: a completed cycle has predicted every landmark's observation, kept the user's pick at the head of the prediction list, built the Jacobians and the innovation grid, and holds the observations and association the data association returned, with no unpredicted landmark, then leaves `FinishIteration` on those observations; a failure is some landmark's Jacobian error or `FinishIteration`'s error |
| `KalmanFilter.KalmanFilterCapable.Finish` | libs/bayes/include/mrpt/bayes/CKalmanFilterCapable_impl.h:472-915 | update, normalisation and injection leave `FinishIteration` of the state |
| `CsNorm.ColumnSumNonNegative` | libs/math/src/CSparse/cs_norm.c:14 | a sum of absolute values is never negative |
| `CsNorm.ColumnSumZeroIff` | libs/math/src/CSparse/cs_norm.c:14 | a column sums to 0 exactly when every stored entry of it is 0 |
| `CsNorm.MaxColumnSumIsMaximum` | libs/math/src/CSparse/cs_norm.c:5-17 | the running maximum is at least 0, at least every column sum, and is 0 or one of the column sums |
| `CsNorm.Norm` | libs/math/src/CSparse/cs_norm.c:6-18 | -1 for a matrix that is not compressed-column or has no values; otherwise the largest column sum of absolute values |
| `CsNorm.NormIsLargestColumnSum` | libs/math/src/CSparse/cs_norm.c:5 | the 1-norm bounds every column sum and is attained by one of them (0 for no columns) |
| `CsEreach.Flip` | libs/math/src/CSparse/cs_ereach.c:11 | marking maps `w` to `-w - 2`: an unmarked (non-negative) entry becomes marked (negative) and the other way round |
| `CsEreach.ChainFacts` | libs/math/src/CSparse/cs_ereach.c:16-20 | the nodes met walking up the elimination tree from `i` lie in `[i, k)`, and with `k` they are closed upward |
| `CsEreach.PathFacts` | libs/math/src/CSparse/cs_ereach.c:16-20 | the climb from `i` stops at the first marked node; its nodes increase, lie in `[i, k)`, were unmarked, and mark the same nodes as the whole chain to `k` |
| `CsEreach.EReachFacts` | libs/math/src/CSparse/cs_ereach.c:12-22 | after every column entry the stack has no repeats, holds exactly the marked nodes other than `k`, and the marked set is `k` plus the union of the chains |
| `CsEreach.PushKeepsMarks` | libs/math/src/CSparse/cs_ereach.c:16-21 | pushing one climbed path keeps those facts and marks exactly the entry's chain |
| `CsEreach.PatternIsUnionOfPaths` | libs/math/src/CSparse/cs_ereach.c:25 | node `j` is in the pattern exactly when some entry `i <= k` of column `k` reaches `j` on its way up the tree to `k` |
| `CsEreach.UnionOfChainsMembers` | libs/math/src/CSparse/cs_ereach.c:12-22 | membership in the union of the chains, both directions |
| `CsEreach.PatternHasNoRepeats` | libs/math/src/CSparse/cs_ereach.c:25 | the pattern lists each node once, never `k`, and only nodes below `k` |
| `CsEreach.LowerEntriesIgnored` | libs/math/src/CSparse/cs_ereach.c:15 | an entry below the diagonal (`i > k`) does not change the pattern |
| `CsEreach.Climb` | libs/math/src/CSparse/cs_ereach.c:16-20 | the climb writes the path to `s[0..len)`, marks exactly its nodes and leaves the stack part of `s` alone |
| `CsEreach.ClimbStep` | libs/math/src/CSparse/cs_ereach.c:18-19 | recording and marking one unmarked node keeps the climb's invariant, one node further up |
| `CsEreach.MarkOne` | libs/math/src/CSparse/cs_ereach.c:19 | marking one more node keeps "marked exactly along the visited nodes" |
| `CsEreach.PushPath` | libs/math/src/CSparse/cs_ereach.c:21 | copying the path below `top` puts it, in order, in front of the stack |
| `CsEreach.Unmark` | libs/math/src/CSparse/cs_ereach.c:23-24 | unmarking the stacked nodes and `k` restores `w` to what it was on entry |
| `CsEreach.EReach` | libs/math/src/CSparse/cs_ereach.c:6-26 | -1 on bad inputs; otherwise `s[top..n)` is the pattern of row `k` of the Cholesky factor and `w` is as on entry |
| `CsEreach.ReachFromColumn` | libs/math/src/CSparse/cs_ereach.c:10-25 | the scan of column `k` leaves the pattern in `s[top..n)` and `w` as it was |
| `CsEreach.ScanStep` | libs/math/src/CSparse/cs_ereach.c:13-21 | one column entry handled keeps the scan's invariant for the entries seen so far |
| `CsEreach.InvariantGivesStackState` | libs/math/src/CSparse/cs_ereach.c:12-22 | the scan's invariant gives a repeat-free stack of the marked nodes and an upward-closed marked set |
| `CsEreach.VisitEntry` | libs/math/src/CSparse/cs_ereach.c:14-21 | an entry below the diagonal changes nothing; any other pushes its climbed path and marks it |
| `CsEreach.PathRoom` | libs/math/src/CSparse/cs_ereach.c:21 | the path and the stack together fit below `k`, so the stack never overruns the path area |
| `VisionUtils.IntrinsicMatrix` | libs/vision/src/vision_utils.cpp:204-205 | the 3-by-3 intrinsic matrix: focal lengths on the diagonal, the principal point in the last column, 1 in the corner, zeros elsewhere |
| `VisionUtils.KnownCalibration` | libs/vision/src/vision_utils.cpp:179-202 | calibrations exist for camera 0 and camera 1 only; any other index is the unknown-camera error |
| `VisionUtils.DefaultIntrinsicParamsMatrix` | libs/vision/src/vision_utils.cpp:174-206 | fails exactly for an unknown camera index; otherwise the intrinsic matrix of the camera's normalised parameters scaled by the resolution |
| `VisionUtils.KnownCentresInsideImage` | libs/vision/src/vision_utils.cpp:183-195 | for both known cameras the principal point lies inside the image |
| `VisionUtils.AsUnsigned32` | libs/vision/src/vision_utils.cpp:255 | the cast to `unsigned int` keeps identifiers in range and stays below 2^32 |
| `VisionUtils.PairOf` | libs/vision/src/vision_utils.cpp:255-263 | a pair carries the identifier as both indices and the two landmarks' mean positions |
| `VisionUtils.CloudsToMatchedList` | libs/vision/src/vision_utils.cpp:241-267 | the list given, followed by one pair per (landmark of cloud 1, landmark of cloud 2) with the same identifier, in loop order |
| `VisionUtils.MatchesOfStep` | libs/vision/src/vision_utils.cpp:250-266 | one more landmark of cloud 2 adds its pair exactly when the identifiers agree |
| `VisionUtils.MatchedPairsStep` | libs/vision/src/vision_utils.cpp:248-266 | one more landmark of cloud 1 appends its matches against all of cloud 2 |
| `VisionUtils.MatchesOfSound` | libs/vision/src/vision_utils.cpp:252-265 | every pair for one landmark comes from a landmark of cloud 2 with its identifier |
| `VisionUtils.MatchesOfComplete` | libs/vision/src/vision_utils.cpp:252-265 | every landmark of cloud 2 with the identifier gives a pair |
| `VisionUtils.MatchedPairsSound` | libs/vision/src/vision_utils.cpp:248-266 | every output pair joins two landmarks with the same identifier |
| `VisionUtils.MatchedPairsComplete` | libs/vision/src/vision_utils.cpp:248-266 | every two landmarks with the same identifier give an output pair |
| `VisionUtils.TruncateToInt` | libs/vision/src/vision_utils.cpp:718-719 | a cast to `int` truncates toward zero |
| `VisionUtils.HalfWindow` | libs/vision/src/vision_utils.cpp:708 | `(int)(0.5 * wSize)` is half of a non-negative size rounded down, and at most 0 for a negative one |
| `VisionUtils.ClearWindow` | libs/vision/src/vision_utils.cpp:715-722 | the cells of the window around the point that lie inside the clipping size become false; every other cell keeps its value |
| `VisionUtils.GenerateMask` | libs/vision/src/vision_utils.cpp:699-733 | an empty match list is an error; otherwise a cell of each mask becomes false exactly when it lies in the window of some match in that image, each mask clipped to its own size |
| `VisionUtils.CoveredStep` | libs/vision/src/vision_utils.cpp:713-732 | covered by the first `k + 1` matches means covered by the first `k` or by match `k` |
| `VisionUtils.SmallWindowClearsNothing` | libs/vision/src/vision_utils.cpp:708-716 | a window size below 2 clears no cell |
| `VisionUtils.WrittenInMask2AsWritten` | libs/vision/src/vision_utils.cpp:709-731 | the cells the code as written clears in the second mask: every one lies inside the FIRST mask's size, whatever the second mask's |
| `VisionUtils.Mask2ClippedByMask1Size` | libs/vision/src/vision_utils.cpp:709-731 | with a 10x10 first mask and a 5x5 second one, the code as written writes cell (6, 6) of the second mask, which clipping to its own size leaves alone |
| `VisionUtils.SameSizeMasksAgree` | libs/vision/src/vision_utils.cpp:709-731 | for masks of the same size the code as written and the corrected clipping write the same cells |
| `NetUtils.FindChar` | libs/comms/src/net_utils.cpp:91 | the first position of the character, or none exactly when it does not occur |
| `NetUtils.SplitUrl` | libs/comms/src/net_utils.cpp:77-102 | a URL not starting with `http://` is a bad URL; the only error is the bad-URL code |
| `NetUtils.SplitUrlRoundTrip` | libs/comms/src/net_utils.cpp:87-102 | the server has no `/`, the object starts with `/`, and prefix, server and object put back together give the URL (the object `/` being supplied when the URL has none) |
| `NetUtils.SplitUrlBadIff` | libs/comms/src/net_utils.cpp:80-97 | the URL is refused exactly when it lacks the prefix or the server name is empty before a `/` |
| `NetUtils.EmptyServerOnlyForBarePrefix` | libs/comms/src/net_utils.cpp:87-102 | an accepted URL has an empty server name only when it is the bare prefix |
| `NetUtils.DecimalRoundTrip` | libs/comms/src/net_utils.cpp:146-147 | the decimal text of a number reads back as that number |
| `NetUtils.HeadersToSend` | libs/comms/src/net_utils.cpp:119-148 | the user's headers, with `Connection: close`, a default `User-Agent`, Basic authorization when a user is given, and the body length (as a 32-bit unsigned) when there is a body and no length header; nothing else added |
| `NetUtils.ParseHeaderLines` | libs/comms/src/net_utils.cpp:293-305 | the loop over the header lines computes exactly the header map |
| `NetUtils.HeaderMapFailureSticks` | libs/comms/src/net_utils.cpp:296-374 | once a line has failed, the whole parse fails with the connection error |
| `NetUtils.LineKeyValue` | libs/comms/src/net_utils.cpp:299-304 | the key is the `p` characters before the `:`, and key, the two characters at the `:` and value put back together give the line; a `:` with fewer than two characters from it on is the `substr` error, both directions |
| `NetUtils.HeaderMap` | libs/comms/src/net_utils.cpp:296-305 | the received headers, later lines overwriting earlier ones and lines without `:` skipped; its properties are the `HeaderMap*` lemmas |
| `NetUtils.HeaderMapFailureIsCouldntConnect` | libs/comms/src/net_utils.cpp:370-374 | a failed parse reports the connection error |
| `NetUtils.HeaderMapFailsIff` | libs/comms/src/net_utils.cpp:299-303 | parsing fails exactly when some line ends right after its first colon, so `substr(p + 2)` is out of range |
| `NetUtils.HeaderMapLastWins` | libs/comms/src/net_utils.cpp:296-305 | a key is present exactly when some line has it, and its value is the text after `": "` on the last such line |
| `NetUtils.HeaderMapHasKey` | libs/comms/src/net_utils.cpp:296-305 | a key is present exactly when some line has it before its first colon |
| `NetUtils.HeaderMapLastValue` | libs/comms/src/net_utils.cpp:302-304 | a present key maps to the value of the last line that has it |
| `NetUtils.HeaderMapStep` | libs/comms/src/net_utils.cpp:302-304 | one more line overwrites its own key and keeps every other |
| `NetUtils.FindCRLF` | libs/comms/src/net_utils.cpp:332 | the first CR LF at or after the start, found only when no NUL byte stops the search first |
| `NetUtils.FindCRLFAt` | libs/comms/src/net_utils.cpp:332 | a CR LF preceded only by non-NUL, non-CR bytes is the one found |
| `NetUtils.HexPrefixLength` | libs/comms/src/net_utils.cpp:337-341 | the run of hexadecimal digits `%x` reads, and no more |
| `NetUtils.ChunkLength` | libs/comms/src/net_utils.cpp:337-341 | the size read into an `unsigned int` is below 2^32 |
| `NetUtils.DecodeChunked` | libs/comms/src/net_utils.cpp:323-355 | the in-place loop computes exactly the chunked decoding of the body |
| `NetUtils.DecodeFrom` | libs/comms/src/net_utils.cpp:323-355 | the chunked decoding from a position: a bare CRLF dropped, a size line removed and that many bytes skipped, size 0 ending the body, no CRLF left ending the loop; its properties are the `Decode*` and `*Step` lemmas |
| `NetUtils.DecodeNotLonger` | libs/comms/src/net_utils.cpp:323-355 | decoding never lengthens the body |
| `NetUtils.DecodeKeepsPrefix` | libs/comms/src/net_utils.cpp:323-355 | what was decoded before `index` is kept |
| `NetUtils.SizeLineKeepsPrefix` | libs/comms/src/net_utils.cpp:345-354 | after a size line is removed the decoded part is still kept |
| `NetUtils.SizeLineUnfolds` | libs/comms/src/net_utils.cpp:332-354 | a size line is removed; size 0 cuts the body there, any other size skips that many bytes |
| `NetUtils.NonHexSizeLineTruncates` | libs/comms/src/net_utils.cpp:337-353 | a size line with no leading hex digit reads as size 0 and cuts the body at its start |
| `NetUtils.HexStringValue` | libs/comms/src/net_utils.cpp:337-341 | the hexadecimal text of a number reads back as that number |
| `NetUtils.ChunkLengthOfHexString` | libs/comms/src/net_utils.cpp:337-341 | a size line written for a length below 2^32 reads back as that length |
| `NetUtils.BareCRLFStep` | libs/comms/src/net_utils.cpp:326-330 | a CR LF at the current position is dropped |
| `NetUtils.SizeLineStep` | libs/comms/src/net_utils.cpp:332-354 | a size line of a non-zero size skips that many bytes after its removal; size 0 ends decoding at its start |
| `NetUtils.LastChunkStep` | libs/comms/src/net_utils.cpp:350-354 | the final zero-size chunk ends decoding whatever follows |
| `NetUtils.DecodeEncoded` | libs/comms/src/net_utils.cpp:317-356 | decoding a chunked encoding of non-empty chunks shorter than 2^32 bytes gives back their concatenation, whatever trails the last chunk |
| `NetUtils.OneChunkStep` | libs/comms/src/net_utils.cpp:324-355 | one encoded chunk decodes to itself, followed by the decoding of the rest |
| `NetUtils.ResultCode` | libs/comms/src/net_utils.cpp:361-368 | success exactly for HTTP code 200, any other code is the HTTP error |
| `NetUtils.NumericAddress` | libs/comms/src/net_utils.cpp:400-406 | a name made only of digits, dots and spaces resolves to itself, and only such a name does |
| `RbpfBuilder.NormExceeds` | libs/slam/src/slam/CMetricMapBuilderRBPF.cpp:145-153 | `norm() > t` compared without a square root |
| `RbpfBuilder.MovedEnough` | libs/slam/src/slam/CMetricMapBuilderRBPF.cpp:142-153 | the linear or the angular threshold passed |
| `RbpfBuilder.ThresholdTestIsNormTest` | libs/slam/src/slam/CMetricMapBuilderRBPF.cpp:142-153 | for the norm of the translation, the test without a square root holds exactly when the norm exceeds the threshold, and the movement test exactly when the norm or the absolute yaw passes its threshold |
| `RbpfBuilder.Decide` | libs/slam/src/slam/CMetricMapBuilderRBPF.cpp:142-167 | the first frame, forced insertion or an observation of an always-insert class trigger both steps; otherwise a map update happens exactly when the map accumulator moved or turned past its thresholds, and a localization exactly on a map update or when the localization accumulator did; a map update always implies a localization |
| `RbpfBuilder.ClassObserved` | libs/slam/src/slam/CMetricMapBuilderRBPF.cpp:159-165 | true exactly when some observation has the class |
| `RbpfBuilder.MostLikelyParticle` | libs/slam/src/slam/CMetricMapBuilderRBPF.cpp:320-330 | 0 when no weight exceeds -1; otherwise the first index of a largest weight |
| `RbpfBuilder.MapBuilder.constructor` | libs/slam/src/slam/CMetricMapBuilderRBPF.cpp:32-50 | a builder with the given thresholds, an empty map and both accumulators zero |
| `RbpfBuilder.MapBuilder.Clear` | libs/slam/src/slam/CMetricMapBuilderRBPF.cpp:81-95 | both accumulators back to zero and the map emptied |
| `RbpfBuilder.MapBuilder.DecideFlags` | libs/slam/src/slam/CMetricMapBuilderRBPF.cpp:142-167 | the loop over the always-insert classes computes exactly `Decide` |
| `RbpfBuilder.MapBuilder.ProcessActionObservation` | libs/slam/src/slam/CMetricMapBuilderRBPF.cpp:100-258 | both accumulators take the action's odometry; a localization without odometry fails; otherwise localization zeroes its accumulator, a map update zeroes the other, stores one more frame and sets the inserted flag |
| `RbpfBuilder.ZeroCov` | libs/slam/src/slam/CMetricMapBuilderRBPF.cpp:210 | the 6-by-6 zero covariance |
| `RbpfBuilder.Lift2D` | libs/slam/src/slam/CMetricMapBuilderRBPF.cpp:127-130 | a planar movement as a 3D pose: z, pitch and roll zero |
| `RbpfBuilder.Accumulated` | libs/slam/src/slam/CMetricMapBuilderRBPF.cpp:106-136 | the map accumulator composed with the 3D mean, the lifted planar movement, or unchanged without odometry |
| `RbpfBuilder.AccumulatedGaussian` | libs/slam/src/slam/CMetricMapBuilderRBPF.cpp:106-136 | the localization accumulator composed as a Gaussian for a 3D movement, only its mean for a planar one, unchanged without odometry |
| `RbpfBuilder.StillBelowThresholds` | libs/slam/src/slam/CMetricMapBuilderRBPF.cpp:142-167 | after the first frame, with nothing forced and both accumulators below their thresholds, neither step runs |
| `RbpfBuilder.ZeroBelowThresholds` | libs/slam/src/slam/CMetricMapBuilderRBPF.cpp:145-153 | zeroed accumulators never exceed non-negative thresholds |
| `Twist3D.WithComponent` | libs/math/include/mrpt/math/TTwist3D.h:54-67 | writing component `i` (order vx, vy, vz, wx, wy, wz) sets it and leaves the other five |
| `Twist3D.ComponentsDetermineValue` | libs/math/include/mrpt/math/TTwist3D.h:26-29 | two twists whose six indexed components agree are the same twist |
| `Twist3D.ScaledComponents` | libs/math/include/mrpt/math/TTwist3D.h:97-106 | scaling by `k` multiplies every one of the six components by `k` |
| `Twist3D.Twist.Zero` | libs/math/include/mrpt/math/TTwist3D.h:37-38 | the default twist has all six components zero |
| `Twist3D.Twist.FromComponents` | libs/math/include/mrpt/math/TTwist3D.h:31-36 | the twist built from six values holds exactly them |
| `Twist3D.Twist.Get` | libs/math/include/mrpt/math/TTwist3D.h:68-81 | an index in 0..5 reads that component; any other index is the out-of-range error, both directions |
| `Twist3D.Twist.Set` | libs/math/include/mrpt/math/TTwist3D.h:54-67 | an index in 0..5 writes that component only; any other index fails and changes nothing |
| `Twist3D.Twist.At` | libs/math/include/mrpt/math/TTwist3D.h:83-95 | `(row, col)` access fails unless `col` is 0, and is then `[row]` |
| `Twist3D.Twist.Scale` | libs/math/include/mrpt/math/TTwist3D.h:97-106 | the new twist is the old one scaled by `k` |
| `Twist3D.Twist.AsVector` | libs/math/include/mrpt/math/TTwist3D.h:108-125 | the vector has six entries, entry `i` being component `i` |
| `Twist3D.Twist.SetFromVector` | libs/math/include/mrpt/math/TTwist3D.h:127-134 | a vector of size 6 sets every component; any other size fails and changes nothing |
| `Twist3D.Twist.Rotated` | libs/math/include/mrpt/math/TTwist3D.h:154-161 | the copy holds the rotated value and the original is unchanged |
| `Twist3D.FromVector` | libs/math/include/mrpt/math/TTwist3D.h:40-52 | a new twist whose six components are the first six entries of `v` |
| `Twist3D.VectorRoundTrip` | libs/math/include/mrpt/math/TTwist3D.h:108-134 | `fromVector(asVector())` gives back the same twist |
| `PoseOrPoint.PoseOrPoint.constructor` | libs/poses/include/mrpt/poses/CPoseOrPoint.h:135-137 | the coordinate array holds x, y and, for a 3D type, z |
| `PoseOrPoint.PoseOrPoint.X` | libs/poses/include/mrpt/poses/CPoseOrPoint.h:143-146 | the x coordinate, `m_coords[0]`; the setters and distances are stated through it |
| `PoseOrPoint.PoseOrPoint.Y` | libs/poses/include/mrpt/poses/CPoseOrPoint.h:147-150 | the y coordinate, `m_coords[1]`; the setters and distances are stated through it |
| `PoseOrPoint.PoseOrPoint.ZOrZero` | libs/poses/include/mrpt/poses/CPoseOrPoint.h:179-183 | z for a 3D pose or point, 0 for a 2D one |
| `PoseOrPoint.PoseOrPoint.SetX` | libs/poses/include/mrpt/poses/CPoseOrPoint.h:161-164 | x becomes `v`; every other coordinate is unchanged |
| `PoseOrPoint.PoseOrPoint.SetY` | libs/poses/include/mrpt/poses/CPoseOrPoint.h:165-168 | y becomes `v`; every other coordinate is unchanged |
| `PoseOrPoint.PoseOrPoint.IncrementX` | libs/poses/include/mrpt/poses/CPoseOrPoint.h:170-173 | x grows by `v`; every other coordinate is unchanged |
| `PoseOrPoint.PoseOrPoint.IncrementY` | libs/poses/include/mrpt/poses/CPoseOrPoint.h:174-177 | y grows by `v`; every other coordinate is unchanged |
| `PoseOrPoint.PoseOrPoint.Distance2DToSquare` | libs/poses/include/mrpt/poses/CPoseOrPoint.h:218-224 | the squared planar distance is non-negative and 0 at the pose's own x, y |
| `PoseOrPoint.PoseOrPoint.Distance3DToSquare` | libs/poses/include/mrpt/poses/CPoseOrPoint.h:226-232 | the planar part plus the squared z difference, z of a 2D pose read as 0 |
| `PoseOrPoint.PoseOrPoint.SqrDistanceToAsWritten` | libs/poses/include/mrpt/poses/CPoseOrPoint.h:185-209 | the four branches as written; a 3D receiver with a 2D argument adds the square of whatever lies past the argument's two coordinates |
| `PoseOrPoint.PoseOrPoint.SqrDistanceTo` | libs/poses/include/mrpt/poses/CPoseOrPoint.h:185-209 | the squared distance with a 2D side's z taken as 0: the 3D distance to the argument's point |
| `PoseOrPoint.SqrDistanceSymmetric` | libs/poses/include/mrpt/poses/CPoseOrPoint.h:185-209 | the corrected squared distance is symmetric for every mix of 2D and 3D |
| `PoseOrPoint.SqrDistanceToSelf` | libs/poses/include/mrpt/poses/CPoseOrPoint.h:185-209 | the squared distance of a pose or point to itself is 0 |
| `PoseOrPoint.SqrDistanceAsWrittenNotSymmetric` | libs/poses/include/mrpt/poses/CPoseOrPoint.h:191-207 | with a 3D point at the origin, a 2D point at the origin, and 1 stored after the 2D point's coordinates, the distance as written is 1 one way and 0 the other |
| `EdgeCounter.SumCountsRemove` | libs/graphslam/include/mrpt/graphslam/misc/CEdgeCounter.h:51-54 | the total over all edge types is one type's count plus the total over the others |
| `EdgeCounter.SumCountsUpdate` | libs/graphslam/include/mrpt/graphslam/misc/CEdgeCounter.h:72-78 | setting one type's count changes the total by the new count minus the old one |
| `EdgeCounter.EdgeCounter.constructor` | libs/graphslam/include/mrpt/graphslam/misc/CEdgeCounter.h:33 | a new counter has no edge types, no loop closures, no unique edges and no text parameters |
| `EdgeCounter.EdgeCounter.SetRemovedEdges` | libs/graphslam/include/mrpt/graphslam/misc/CEdgeCounter.h:38-43 | the unique-edge count becomes the total minus the removed edges; nothing else changes |
| `EdgeCounter.EdgeCounter.SetLoopClosureEdgesManually` | libs/graphslam/include/mrpt/graphslam/misc/CEdgeCounter.h:44-47 | the loop-closure count becomes `n`; nothing else changes |
| `EdgeCounter.EdgeCounter.LoopClosureEdges` | libs/graphslam/include/mrpt/graphslam/misc/CEdgeCounter.h:48-50 | the loop-closure count, as `setLoopClosureEdgesManually` and `addEdge` leave it |
| `EdgeCounter.EdgeCounter.TotalNumOfEdges` | libs/graphslam/include/mrpt/graphslam/misc/CEdgeCounter.h:51-59 | the sum of the counts of all registered edge types |
| `EdgeCounter.EdgeCounter.NumForEdgeType` | libs/graphslam/include/mrpt/graphslam/misc/CEdgeCounter.h:60-71 | the count of a registered type, and an error exactly when the type is not registered |
| `EdgeCounter.EdgeCounter.SetEdgesManually` | libs/graphslam/include/mrpt/graphslam/misc/CEdgeCounter.h:72-78 | the type's count becomes `n`, registering it if needed; nothing else changes |
| `EdgeCounter.EdgeCounter.AddEdge` | libs/graphslam/include/mrpt/graphslam/misc/CEdgeCounter.h:79-87 | fails, changing nothing, exactly when the type exists and `is_new` is set; otherwise one more edge of the type and one more loop closure when flagged |
| `EdgeCounter.EdgeCounter.AddEdgeType` | libs/graphslam/include/mrpt/graphslam/misc/CEdgeCounter.h:88-90 | registers the type with count 0, and fails without change when it is already registered |
| `EdgeCounter.EdgeCounter.ClearAllEdges` | libs/graphslam/include/mrpt/graphslam/misc/CEdgeCounter.h:91-93 | the counter as built: no edge types, no loop closures, no unique edges, no text-message layout, total 0 |
| `EdgeCounter.EdgeCounter.SetTextMessageParams` | libs/graphslam/include/mrpt/graphslam/misc/CEdgeCounter.h:111-121 | succeeds exactly when every name in both maps is a registered type, then stores both maps; otherwise fails naming an unregistered type and changes nothing |
| `EdgeCounter.EdgeCounter.FirstUnregistered` | libs/graphslam/include/mrpt/graphslam/misc/CEdgeCounter.h:111-118 | a name of the set that is not registered, or none exactly when all are |
| `EdgeCounter.AddOne` | libs/graphslam/include/mrpt/graphslam/misc/CEdgeCounter.h:79-87 | one more edge of the named type, registering it at 1, the other types unchanged |
| `EdgeCounter.AddOneTotal` | libs/graphslam/include/mrpt/graphslam/misc/CEdgeCounter.h:79-87 | adding an edge raises the total by exactly one |
| `EdgeCounter.AddEdgeTypeTotal` | libs/graphslam/include/mrpt/graphslam/misc/CEdgeCounter.h:88-90 | registering a new type leaves the total unchanged |
| `EdgeCounter.SetEdgesManuallyReadBack` | libs/graphslam/include/mrpt/graphslam/misc/CEdgeCounter.h:60-78 | a count set manually reads back, and the total moves by the difference |

## Left out

- Floating point: every `double` and `float` is a Dafny `real`. Rounding, overflow, infinities and NaN are not modelled.
- Kalman filter: the user's hooks (`OnGetAction`, `OnTransitionModel`, `OnObservationModel`, the data association, `OnInverseObservationModel` and the others) are parameters of the model, collected in `UserModel`. Their sizes and the contracts the engine relies on are stated in `WellFormed`.
- Kalman filter: `inverse_LLt` (the Cholesky inverse of `S`) is a parameter (`UserModel.inverse`).
- Kalman filter: `mrpt/math/num_jacobian.h` is not part of this model. `estimateJacobian` is modelled as the central difference `(f(x + h) - f(x - h)) / 2h` of each column, in `NumericJacobian`.
- Kalman filter: the profiler, the logging and the `OnPostIteration` and `OnNewLandmarkAddedToMap` notifications are left out. They do not change the filter's state.
- Kalman filter: `CKalmanFilterCapable.h` (the class declaration, its constructor and `KF_options` defaults) is not part of this model. The class is built from a given mean and covariance.
- Kalman filter: the build macros are options. `debugBuild` is `_DEBUG`, which alone gates the independent-noise check (CKalmanFilterCapable_impl.h:777-794). `alwaysChecks` is `MRPT_ALWAYS_CHECKS_DEBUG`; either macro enables the negative-variance check (868-876). The header defining `ASSERTDEB_` is not part of this model; `ASSERTDEB_` (the whole-landmark check at 49-54) is taken to check under the same condition as line 868, as MRPT's exception header defines it.
- Kalman filter: matrix `setSize` is modelled as keeping the old entries and zeroing the new ones. The growth overwrites every new entry before reading it, so this does not matter.
- Kalman filter: a scalar update whose innovation variance is exactly zero would divide by zero. It is modelled as the error `ZeroInnovationVariance`.
- Kalman filter: after an exception thrown midway through the update stage (an unpredicted landmark in a scalar update, a debug check), the model states the error but not the partly updated state.
- `KalmanUpdate.FullUpdate`: states the sizes of the result but not that `(I - K H) P` stays symmetric. That holds only in exact arithmetic for the optimal gain, and the code does not enforce it.
- `KalmanFilter.KalmanFilterCapable.RunOneIteration`: in a build where `ASSERTDEB_` does not check, it requires the landmark part of the state to be whole landmarks. The code assumes this there without checking. It also requires a non-SLAM filter's state to be the vehicle alone, as the code assumes.
- `KalmanFilter.KalmanFilterCapable.NumberOfLandmarks`: the `size_t` wrap-around is modelled for a state shorter than the vehicle, but only for states shorter than 2^64 entries.
- `CsEreach.EReach`: requires every node of `w` to be unmarked on entry. It also requires the walk up `parent` from every entry of column `k` at most `k` to reach `k`, as it does when `parent` is the elimination tree of `A`. The C code assumes both without checking.
- vision_utils: `generateMask` is modelled on two distinct masks. The case where both arguments are the same matrix is not modelled.
- vision_utils: `defaultIntrinsicParamsMatrix`'s parameters are the constants of the code, in reals.
- `NetUtils.ChunkLength` and `NetUtils.DecodeFrom`: `sscanf("0x" + line, "%x")` is read as glibc reads it, where a bare `0x` scans as 0 with one field, so the `if (!fields) break;` at net_utils.cpp:341-342 never fires in the model. A C library that treats `0x` without digits as a matching failure stops decoding at such a size line and leaves the buffer as it is; the model instead removes the line and cuts the body there (`NetUtils.NonHexSizeLineTruncates`).
- net_utils: sockets, connecting, sending, the response-reading loop with its timeouts, and threads are not modelled. The received text is the input of the header parsing and of the chunked decoding.
- net_utils: Base64 encoding of the credentials is a parameter of `HeadersToSend`.
- net_utils: name resolution beyond the numeric-address shortcut (`gethostbyname`) is not modelled.
- RBPF map builder: the particle filter, the metric maps and pose composition are not modelled. Composition of poses and of Gaussians is a parameter.
- `RbpfBuilder.MapBuilder.ProcessActionObservation`: the frame count grows by one on a map update. This relies on the map insertion storing exactly one frame, which is not modelled.
- CEdgeCounter: only the declarations and their documentation exist. Each method follows its documented behaviour, and the visualization methods are left out.
- CPoseOrPoint: the square-root distances (`distanceTo`, `norm`), the homogeneous matrices and the printing are not modelled.
- `PoseOrPoint.PoseOrPoint.Distance2DToSquare`: states that the result is non-negative and 0 for the same point. It does not state the converse, that 0 means the same point.
- TTwist3D: `asString`, `fromString` and the text stream operators are not modelled. `rotate` is a parameter of `Rotated`.
- TTwist3D: `operator==` and `operator!=` are declared without a body in the header, so they are not modelled. Value equality of the model is stated by `ComponentsDetermineValue`.

## Findings

| source | as written | input that shows it | evidently intended | confidence | as-written member | corrected member |
|---|---|---|---|---|---|---|
| libs/poses/include/mrpt/poses/CPoseOrPoint.h:203-205 | a 3D object's squared distance to a 2D one reads `m_coords[2]` of the 2D argument, which is past its two coordinates (the heading of a `CPose2D`) | a 3D point at the origin and a 2D point at the origin whose next stored value is 1: the distance is 1 one way and 0 the other | treat the 2D argument's z as 0, which makes the distance symmetric | not executed | `PoseOrPoint.PoseOrPoint.SqrDistanceToAsWritten`, `PoseOrPoint.SqrDistanceAsWrittenNotSymmetric` | `PoseOrPoint.PoseOrPoint.SqrDistanceTo`, `PoseOrPoint.SqrDistanceSymmetric` |
| libs/vision/src/vision_utils.cpp:709-731 | the window cleared in `mask2` is clipped with the size of `mask1` | a 10x10 `mask1`, a 5x5 `mask2`, window size 4, one match at (7, 7) in the second image: cell (6, 6) of `mask2` is written, outside its bounds | clip each mask to its own size | not executed | `VisionUtils.WrittenInMask2AsWritten`, `VisionUtils.Mask2ClippedByMask1Size` | `VisionUtils.GenerateMask`, `VisionUtils.SameSizeMasksAgree` |
