/** The decision logic of the Rao-Blackwellized particle-filter map builder:
    odometry is accumulated between steps, and a new action/observation pair
    triggers a localization step and/or a map update when the robot has moved
    or turned enough since the last one. The particle filter itself, the maps
    and pose composition are not modelled; composition is a parameter. */
module RbpfBuilder {

  /** A 3D pose: translation and yaw/pitch/roll angles. */
  datatype Pose = Pose(x: real, y: real, z: real, yaw: real, pitch: real, roll: real)

  /** A Gaussian over poses: mean and 6x6 covariance. */
  datatype PoseGaussian = PoseGaussian(mean: Pose, cov: seq<seq<real>>)

  /** The odometry carried by an action collection: a 3D movement with its
      uncertainty, a planar movement (x, y, phi), or none. */
  datatype Action =
    | Move3D(change: PoseGaussian)
    | Move2D(dx: real, dy: real, dphi: real)
    | NoOdometry

  datatype Options = Options(
    insertionLinDistance: real, insertionAngDistance: real,
    localizeLinDistance: real, localizeAngDistance: real,
    debugForceInsertion: bool,
    alwaysInsertByClass: seq<string>)

  datatype Flags = Flags(doLocalization: bool, doMapUpdate: bool)

  datatype Error = NoOdometryForLocalization

  datatype Result<T> = Ok(value: T) | Err(error: Error)

  const ZeroPose := Pose(0.0, 0.0, 0.0, 0.0, 0.0, 0.0)

  function ZeroCov(): (c: seq<seq<real>>)
    ensures |c| == 6 && forall i :: 0 <= i < 6 ==> |c[i]| == 6
    ensures forall i, j :: 0 <= i < 6 && 0 <= j < 6 ==> c[i][j] == 0.0
  {
    seq(6, _ => seq(6, _ => 0.0))
  }

  /** A planar pose seen as a 3D pose: z, pitch and roll are zero. */
  function Lift2D(dx: real, dy: real, dphi: real): (p: Pose)
    ensures p.x == dx && p.y == dy && p.yaw == dphi
    ensures p.z == 0.0 && p.pitch == 0.0 && p.roll == 0.0
  {
    Pose(dx, dy, 0.0, dphi, 0.0, 0.0)
  }

  function Abs(a: real): (r: real)
    ensures r >= 0.0 && (r == a || r == -a)
  {
    if a < 0.0 then -a else a
  }

  /** `p.norm() > t`, the Euclidean norm of the translation compared with
      `t` without a square root: a norm is never negative. */
  predicate NormExceeds(p: Pose, t: real)
  {
    t < 0.0 || p.x * p.x + p.y * p.y + p.z * p.z > t * t
  }

  /** The test without a square root is the test of the norm: for the
      norm `n` of the translation (non-negative, squaring to the sum of the
      squared coordinates), `NormExceeds` holds exactly when `n > t`, and
      `MovedEnough` exactly when `n` passes `lin` or the yaw passes `ang`. */
  lemma ThresholdTestIsNormTest(p: Pose, n: real, lin: real, ang: real)
    requires n >= 0.0 && n * n == p.x * p.x + p.y * p.y + p.z * p.z
    ensures NormExceeds(p, lin) <==> n > lin
    ensures MovedEnough(p, lin, ang) <==> n > lin || Abs(p.yaw) > ang
  {
    if lin >= 0.0 {
      if n > lin {
        assert n * n - lin * lin == (n - lin) * (n + lin);
        ProductSign(n - lin, n + lin);
      } else {
        assert lin * lin - n * n == (lin - n) * (lin + n);
        ProductSign(lin - n, lin + n);
      }
    }
  }

  lemma ProductSign(a: real, b: real)
    requires a >= 0.0 && b >= 0.0
    ensures a * b >= 0.0
    ensures a > 0.0 && b > 0.0 ==> a * b > 0.0
  {
  }

  /** Whether the accumulated movement `acc` passes a linear or an angular threshold. */
  predicate MovedEnough(acc: Pose, lin: real, ang: real)
  {
    NormExceeds(acc, lin) || Abs(acc.yaw) > ang
  }

  /** Whether some observation is of a class listed in `alwaysInsertByClass`. */
  predicate AnyForcedClass(classes: seq<string>, observations: seq<string>)
  {
    exists i, j :: 0 <= i < |classes| && 0 <= j < |observations| && classes[i] == observations[j]
  }

  /** The decision rule: both steps on the first observation or when forced;
      otherwise each step when its own accumulator has moved enough; a listed
      observation class forces both; and a map update always comes with a
      localization step. */
  function Decide(opts: Options, firstObservation: bool, locAcc: Pose, mapAcc: Pose, observations: seq<string>): (f: Flags)
    ensures firstObservation || opts.debugForceInsertion ==> f.doLocalization && f.doMapUpdate
    ensures AnyForcedClass(opts.alwaysInsertByClass, observations) ==> f.doLocalization && f.doMapUpdate
    ensures f.doMapUpdate ==> f.doLocalization
    ensures !firstObservation && !opts.debugForceInsertion && !AnyForcedClass(opts.alwaysInsertByClass, observations) ==>
      (f.doMapUpdate <==> MovedEnough(mapAcc, opts.insertionLinDistance, opts.insertionAngDistance)) &&
      (f.doLocalization <==> f.doMapUpdate || MovedEnough(locAcc, opts.localizeLinDistance, opts.localizeAngDistance))
  {
    var always := firstObservation || opts.debugForceInsertion;
    var mapUpdate := always || MovedEnough(mapAcc, opts.insertionLinDistance, opts.insertionAngDistance)
                     || AnyForcedClass(opts.alwaysInsertByClass, observations);
    var localization := always || MovedEnough(locAcc, opts.localizeLinDistance, opts.localizeAngDistance)
                        || mapUpdate;
    Flags(localization, mapUpdate)
  }

  /** Whether `c` is the class of some observation, by a loop that stops at the first hit. */
  method ClassObserved(c: string, observations: seq<string>) returns (found: bool)
    ensures found <==> exists j :: 0 <= j < |observations| && observations[j] == c
  {
    found := false;
    var j := 0;
    while j < |observations|
      invariant 0 <= j <= |observations|
      invariant !exists j' :: 0 <= j' < j && observations[j'] == c
    {
      if observations[j] == c {
        return true;
      }
      j := j + 1;
    }
  }

  /** The position of the particle with the largest weight: the search starts
      at weight -1 and index 0 and moves only on a strictly larger weight, so
      ties go to the first particle, and with no weight above -1 the answer is 0. */
  method MostLikelyParticle(weights: seq<real>) returns (mostLik: nat)
    ensures (forall i :: 0 <= i < |weights| ==> weights[i] <= -1.0) ==> mostLik == 0
    ensures (exists i :: 0 <= i < |weights| && weights[i] > -1.0) ==>
      mostLik < |weights| && weights[mostLik] > -1.0 &&
      (forall i :: 0 <= i < |weights| ==> weights[i] <= weights[mostLik]) &&
      (forall i :: 0 <= i < mostLik ==> weights[i] < weights[mostLik])
  {
    var maxW := -1.0;
    mostLik := 0;
    var i := 0;
    while i < |weights|
      invariant 0 <= i <= |weights|
      invariant maxW >= -1.0
      invariant forall j :: 0 <= j < i ==> weights[j] <= maxW
      invariant maxW == -1.0 ==> mostLik == 0
      invariant maxW > -1.0 ==> mostLik < i && weights[mostLik] == maxW
      invariant maxW > -1.0 ==> forall j :: 0 <= j < mostLik ==> weights[j] < maxW
      invariant maxW == -1.0 || exists j :: 0 <= j < i && weights[j] > -1.0
    {
      if weights[i] > maxW {
        maxW := weights[i];
        mostLik := i;
      }
      i := i + 1;
    }
  }

  class MapBuilder {
    const options: Options
    /** Number of sensory frames stored in the map so far (`mapPDF.SFs.size()`). */
    var framesInMap: nat
    /** `odoIncrementSinceLastLocalization`. */
    var locAcc: PoseGaussian
    /** `odoIncrementSinceLastMapUpdate`. */
    var mapAcc: Pose
    /** `m_statsLastIteration.observationsInserted`. */
    var observationsInserted: bool

    constructor (opts: Options)
      ensures options == opts && framesInMap == 0
      ensures locAcc == PoseGaussian(ZeroPose, ZeroCov()) && mapAcc == ZeroPose
      ensures !observationsInserted
    {
      options := opts;
      framesInMap := 0;
      locAcc := PoseGaussian(ZeroPose, ZeroCov());
      mapAcc := ZeroPose;
      observationsInserted := false;
    }

    /** `clear`: both odometry accumulators back to zero, and the map emptied. */
    method Clear()
      modifies this
      ensures locAcc == PoseGaussian(ZeroPose, ZeroCov()) && mapAcc == ZeroPose
      ensures framesInMap == 0
      ensures observationsInserted == old(observationsInserted)
    {
      locAcc := PoseGaussian(ZeroPose, ZeroCov());
      mapAcc := ZeroPose;
      framesInMap := 0;
    }

    /** The two flags, computed as the source does: the threshold tests first,
        then the loop over the always-insert classes (stopping once a map update
        is decided), then "map update implies localization". */
    method DecideFlags(observations: seq<string>) returns (f: Flags)
      ensures f == Decide(options, framesInMap == 0, locAcc.mean, mapAcc, observations)
    {
      var locBase := framesInMap == 0 || options.debugForceInsertion
        || MovedEnough(locAcc.mean, options.localizeLinDistance, options.localizeAngDistance);
      var mapBase := framesInMap == 0 || options.debugForceInsertion
        || MovedEnough(mapAcc, options.insertionLinDistance, options.insertionAngDistance);
      var doLocalization, doMapUpdate := locBase, mapBase;
      var classes := options.alwaysInsertByClass;
      var c := 0;
      while !doMapUpdate && c < |classes|
        invariant 0 <= c <= |classes|
        invariant !doMapUpdate ==> forall i, j :: 0 <= i < c && 0 <= j < |observations| ==> classes[i] != observations[j]
        invariant doMapUpdate ==> (mapBase || AnyForcedClass(classes, observations))
        invariant mapBase ==> doMapUpdate
        invariant doLocalization ==> (locBase || doMapUpdate)
        invariant locBase ==> doLocalization
        decreases |classes| - c
      {
        var hit := ClassObserved(classes[c], observations);
        if hit {
          doMapUpdate := true;
          doLocalization := true;
        }
        c := c + 1;
      }
      if doMapUpdate {
        doLocalization := true;
      }
      f := Flags(doLocalization, doMapUpdate);
    }

    /** One step of `processActionObservation`: the action's odometry is
        composed onto both accumulators (only the mean of the localization one
        for a planar movement), the flags are decided, and then a localization
        step zeroes the localization accumulator, while a map update zeroes the
        map accumulator, stores the frame in the map and records that
        observations were inserted. A localization step needs odometry: with
        none it is an error, after the (empty) accumulation. */
    method ProcessActionObservation(
      action: Action, observations: seq<string>,
      compose: (Pose, Pose) -> Pose,
      composeGaussian: (PoseGaussian, PoseGaussian) -> PoseGaussian)
      returns (r: Result<Flags>)
      modifies this
      ensures var mapAcc1 := Accumulated(old(mapAcc), action, compose);
              var loc1 := AccumulatedGaussian(old(locAcc), action, compose, composeGaussian);
              var f := Decide(options, old(framesInMap) == 0, loc1.mean, mapAcc1, observations);
              && (r.Err? <==> f.doLocalization && action.NoOdometry?)
              && (r.Ok? ==> r.value == f)
              && (r.Err? ==> locAcc == loc1 && mapAcc == mapAcc1 && observationsInserted == old(observationsInserted))
              && (r.Ok? ==> locAcc == (if f.doLocalization then PoseGaussian(ZeroPose, ZeroCov()) else loc1))
              && (r.Ok? ==> mapAcc == (if f.doMapUpdate then ZeroPose else mapAcc1))
              && (r.Ok? ==> observationsInserted == f.doMapUpdate)
              && framesInMap == old(framesInMap) + (if r.Ok? && f.doMapUpdate then 1 else 0)
    {
      mapAcc := Accumulated(mapAcc, action, compose);
      locAcc := AccumulatedGaussian(locAcc, action, compose, composeGaussian);
      var f := DecideFlags(observations);
      if f.doLocalization {
        if action.NoOdometry? {
          return Err(NoOdometryForLocalization);
        }
        locAcc := PoseGaussian(ZeroPose, ZeroCov());
      }
      if f.doMapUpdate {
        mapAcc := ZeroPose;
        framesInMap := framesInMap + 1;
        observationsInserted := true;
      } else {
        observationsInserted := false;
      }
      r := Ok(f);
    }
  }

  /** The map-update accumulator after an action: composed with the mean
      movement, unchanged without odometry. */
  function Accumulated(acc: Pose, action: Action, compose: (Pose, Pose) -> Pose): (r: Pose)
    ensures action.NoOdometry? ==> r == acc
    ensures action.Move2D? ==> r == compose(acc, Lift2D(action.dx, action.dy, action.dphi))
    ensures action.Move3D? ==> r == compose(acc, action.change.mean)
  {
    match action
    case Move3D(change) => compose(acc, change.mean)
    case Move2D(dx, dy, dphi) => compose(acc, Lift2D(dx, dy, dphi))
    case NoOdometry => acc
  }

  /** The localization accumulator after an action: a 3D movement composes the
      whole Gaussian, a planar one only the mean (the covariance is kept). */
  function AccumulatedGaussian(acc: PoseGaussian, action: Action, compose: (Pose, Pose) -> Pose,
                               composeGaussian: (PoseGaussian, PoseGaussian) -> PoseGaussian): (r: PoseGaussian)
    ensures action.NoOdometry? ==> r == acc
    ensures action.Move2D? ==> r.cov == acc.cov && r.mean == Accumulated(acc.mean, action, compose)
    ensures action.Move3D? ==> r == composeGaussian(acc, action.change)
  {
    match action
    case Move3D(change) => composeGaussian(acc, change)
    case Move2D(dx, dy, dphi) => acc.(mean := compose(acc.mean, Lift2D(dx, dy, dphi)))
    case NoOdometry => acc
  }

  /** A step that does not move the robot, on a map that already holds frames,
      with nothing forced, leaves both accumulators where they were if they
      were below their thresholds, and then neither step runs. */
  lemma StillBelowThresholds(opts: Options, locAcc: Pose, mapAcc: Pose, observations: seq<string>)
    requires !opts.debugForceInsertion && !AnyForcedClass(opts.alwaysInsertByClass, observations)
    requires !MovedEnough(mapAcc, opts.insertionLinDistance, opts.insertionAngDistance)
    requires !MovedEnough(locAcc, opts.localizeLinDistance, opts.localizeAngDistance)
    ensures Decide(opts, false, locAcc, mapAcc, observations) == Flags(false, false)
  {
  }

  /** A zeroed accumulator never passes thresholds that are both non-negative. */
  lemma ZeroBelowThresholds(lin: real, ang: real)
    requires lin >= 0.0 && ang >= 0.0
    ensures !MovedEnough(ZeroPose, lin, ang)
  {
    assert ZeroPose.x * ZeroPose.x + ZeroPose.y * ZeroPose.y + ZeroPose.z * ZeroPose.z == 0.0;
    assert lin * lin >= 0.0;
  }
}
