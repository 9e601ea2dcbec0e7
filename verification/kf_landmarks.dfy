/** Landmark injection as functions of the state: each observation without
    an association (-1) appends a landmark to the mean and grows the
    covariance by its cross-covariances and its own block. */
module KalmanLandmarks {
  import opened Matrices
  import opened KalmanTypes

  /** The noise the new landmark inherits from the observation: `dyn_dhn R
      dyn_dhnᵀ`, or the term the user computed in its place. */
  function InjectedNoise(inv: InverseObservation, R: Matrix, d: Dims): Matrix
  {
    if inv.useJacobian then Triple(inv.dynDhn, R, inv.dynDhn, d.feat, d.obs, d.obs, d.feat)
    else inv.precombined
  }

  /** The covariance of the new landmark: `dyn_dxv Pxx dyn_dxvᵀ` plus the
      inherited noise. */
  function NewLandmarkCovariance(P: Matrix, inv: InverseObservation, R: Matrix, d: Dims): (Pnn: Matrix)
    ensures IsMatrix(Pnn, d.feat, d.feat)
  {
    Add(Triple(inv.dynDxv, Block(P, 0, 0, d.veh, d.veh), inv.dynDxv, d.feat, d.veh, d.veh, d.feat),
        InjectedNoise(inv, R, d), d.feat, d.feat)
  }

  /** Entry (r, c) of the n-by-n covariance grown by one landmark: the old
      entries kept, the new rows `dyn_dxv` times the vehicle rows of every
      old column (the vehicle block `Pxx` and each landmark's `P_x,yq`), the
      new columns their transposes, and the new landmark's own block. */
  function GrownEntry(P: Matrix, inv: InverseObservation, R: Matrix, d: Dims, n: nat, r: nat, c: nat): real
  {
    if r < n && c < n then At(P, r, c)
    else if n <= r && n <= c then At(NewLandmarkCovariance(P, inv, R, d), r - n, c - n)
    else if n <= r then Sum(d.veh, Prod(inv.dynDxv, P, r - n, c))
    else Sum(d.veh, Prod(inv.dynDxv, P, c - n, r))
  }

  /** The n-by-n covariance grown by one landmark. */
  function GrownCovariance(P: Matrix, inv: InverseObservation, R: Matrix, d: Dims, n: nat): (P': Matrix)
    ensures IsMatrix(P', n + d.feat, n + d.feat)
  {
    seq(n + d.feat, r requires 0 <= r => seq(n + d.feat, c requires 0 <= c => GrownEntry(P, inv, R, d, n, r, c)))
  }

  /** Growing keeps a symmetric covariance symmetric, when the inherited
      noise is: `R` is, or the user's precombined term is. */
  lemma GrowKeepsSymmetry(P: Matrix, inv: InverseObservation, R: Matrix, d: Dims, n: nat)
    requires IsMatrix(P, n, n) && Symmetric(P, n) && d.veh <= n
    requires IsMatrix(R, d.obs, d.obs) && Symmetric(R, d.obs)
    requires !inv.useJacobian ==> Symmetric(inv.precombined, d.feat)
    ensures Symmetric(GrownCovariance(P, inv, R, d, n), n + d.feat)
  {
    var Pvv := Block(P, 0, 0, d.veh, d.veh);
    assert Symmetric(Pvv, d.veh);
    SandwichSymmetric(inv.dynDxv, Pvv, d.feat, d.veh);
    if inv.useJacobian {
      SandwichSymmetric(inv.dynDhn, R, d.feat, d.obs);
    }
    var Pnn := NewLandmarkCovariance(P, inv, R, d);
    assert Symmetric(Pnn, d.feat);
  }

  /** `setSize` on an n-by-n covariance: the old entries kept and the new
      ones 0 (the growth overwrites every new entry before reading it). */
  function Resized(P: Matrix, n: nat, N: nat): (P': Matrix)
    requires IsMatrix(P, n, n) && n <= N
    ensures IsMatrix(P', N, N)
    ensures forall r, c :: 0 <= r < n && 0 <= c < n ==> P'[r][c] == P[r][c]
  {
    seq(N, r requires 0 <= r < N => seq(N, c requires 0 <= c < N => if r < n && c < n then P[r][c] else 0.0))
  }

  /** How many observations have no association. */
  function NewCount(da: seq<int>): (r: nat)
    ensures r <= |da|
  {
    if |da| == 0 then 0
    else NewCount(da[..|da| - 1]) + if da[|da| - 1] < 0 then 1 else 0
  }

  lemma NewCountStep(da: seq<int>, k: nat)
    requires 0 < k <= |da|
    ensures NewCount(da[..k]) == NewCount(da[..k - 1]) + if da[k - 1] < 0 then 1 else 0
  {
    assert da[..k][..k - 1] == da[..k - 1];
  }

  /** One observation looked at, with association `a`: when it has none
      (-1), the inverse observation model at the state places a landmark,
      appended to the mean, and the covariance grows with it. */
  function AfterObservation(x: Vector, P: Matrix, z: Vector, a: int, R: Matrix, m: UserModel, d: Dims): (r: (Vector, Matrix))
    requires Inverting(m, d)
    ensures |r.0| == |x| + if a < 0 then d.feat else 0
    ensures IsMatrix(P, |x|, |x|) ==> IsMatrix(r.1, |r.0|, |r.0|)
  {
    if a < 0 then
      var inv := m.inverseObservation(x, z);
      (x + inv.yn, GrownCovariance(P, inv, R, d, |x|))
    else (x, P)
  }

  /** The state after the first `k` observations are looked at, in order. */
  function Injected(k: nat, x: Vector, P: Matrix, Z: seq<Vector>, da: seq<int>, R: Matrix, m: UserModel, d: Dims): (r: (Vector, Matrix))
    requires Inverting(m, d) && k <= |da| && k <= |Z|
    ensures |r.0| + d.veh == |x| + Offset(d, NewCount(da[..k]))
    ensures IsMatrix(P, |x|, |x|) ==> IsMatrix(r.1, |r.0|, |r.0|)
  {
    if k == 0 then (x, P)
    else
      var r1 := Injected(k - 1, x, P, Z, da, R, m, d);
      var c := NewCount(da[..k - 1]);
      NewCountStep(da, k);
      var r := AfterObservation(r1.0, r1.1, Z[k - 1], da[k - 1], R, m, d);
      if da[k - 1] < 0 then
        assert |r.0| == |r1.0| + d.feat && NewCount(da[..k]) == c + 1;
        r
      else
        assert |r.0| == |r1.0| && NewCount(da[..k]) == c;
        r
  }

  /** One observation only appends: the leading `n` entries of the mean and
      the leading n-by-n block of the covariance are kept. */
  lemma AfterObservationKeepsPrefix(x: Vector, P: Matrix, z: Vector, a: int, R: Matrix, m: UserModel, d: Dims, n: nat)
    requires Inverting(m, d) && IsMatrix(P, |x|, |x|) && n <= |x|
    ensures var (x', P') := AfterObservation(x, P, z, a, R, m, d);
      x'[..n] == x[..n] && forall r, c :: 0 <= r < n && 0 <= c < n ==> P'[r][c] == P[r][c]
  {
    if a < 0 {
      var inv := m.inverseObservation(x, z);
      assert (x + inv.yn)[..n] == x[..n];
      var P' := GrownCovariance(P, inv, R, d, |x|);
      forall r, c | 0 <= r < n && 0 <= c < n
        ensures P'[r][c] == P[r][c]
      {
        assert P'[r][c] == At(P, r, c);
      }
    }
  }

  /** Injection only appends: the old mean and the old covariance are the
      leading part of the new ones. */
  lemma {:induction false} InjectedKeepsPrefix(k: nat, x: Vector, P: Matrix, Z: seq<Vector>, da: seq<int>, R: Matrix, m: UserModel, d: Dims)
    requires Inverting(m, d) && k <= |da| && k <= |Z| && IsMatrix(P, |x|, |x|)
    ensures var (x', P') := Injected(k, x, P, Z, da, R, m, d);
      x'[..|x|] == x && forall r, c :: 0 <= r < |x| && 0 <= c < |x| ==> P'[r][c] == P[r][c]
  {
    if k > 0 {
      InjectedKeepsPrefix(k - 1, x, P, Z, da, R, m, d);
      var (x1, P1) := Injected(k - 1, x, P, Z, da, R, m, d);
      assert |x1| >= |x| && IsMatrix(P1, |x1|, |x1|);
      AfterObservationKeepsPrefix(x1, P1, Z[k - 1], da[k - 1], R, m, d, |x|);
      var (x', P') := AfterObservation(x1, P1, Z[k - 1], da[k - 1], R, m, d);
      assert (x', P') == Injected(k, x, P, Z, da, R, m, d);
      assert x'[..|x|] == x1[..|x|] == x;
    }
  }

  /** Injection keeps a symmetric covariance symmetric, for a symmetric `R`
      and symmetric precombined terms. */
  lemma {:induction false} InjectedKeepsSymmetry(k: nat, x: Vector, P: Matrix, Z: seq<Vector>, da: seq<int>, R: Matrix, m: UserModel, d: Dims)
    requires Inverting(m, d) && k <= |da| && k <= |Z|
    requires IsMatrix(P, |x|, |x|) && Symmetric(P, |x|) && d.veh <= |x|
    requires IsMatrix(R, d.obs, d.obs) && Symmetric(R, d.obs)
    requires forall v, z :: !m.inverseObservation(v, z).useJacobian ==> Symmetric(m.inverseObservation(v, z).precombined, d.feat)
    ensures Symmetric(Injected(k, x, P, Z, da, R, m, d).1, |Injected(k, x, P, Z, da, R, m, d).0|)
  {
    if k > 0 {
      InjectedKeepsSymmetry(k - 1, x, P, Z, da, R, m, d);
      var (x1, P1) := Injected(k - 1, x, P, Z, da, R, m, d);
      assert |x1| >= |x| && IsMatrix(P1, |x1|, |x1|);
      if da[k - 1] < 0 {
        var inv := m.inverseObservation(x1, Z[k - 1]);
        assert |inv.yn| == d.feat;
        GrowKeepsSymmetry(P1, inv, R, d, |x1|);
      }
    }
  }

  /** `addNewLandmarks`: a filter without landmarks adds none. */
  function WithNewLandmarks(x: Vector, P: Matrix, Z: seq<Vector>, da: seq<int>, R: Matrix, m: UserModel, d: Dims): (r: (Vector, Matrix))
    requires Inverting(m, d) && |da| == |Z|
    ensures |r.0| + d.veh == |x| + Offset(d, NewCount(da))
    ensures IsMatrix(P, |x|, |x|) ==> IsMatrix(r.1, |r.0|, |r.0|)
  {
    assert da[..|Z|] == da;
    if d.feat == 0 then OffsetIsProduct(d, NewCount(da)); (x, P) else Injected(|Z|, x, P, Z, da, R, m, d)
  }

  /** The state grows by one landmark per observation without an
      association, and the covariance with it. */
  lemma NewLandmarksSize(x: Vector, P: Matrix, Z: seq<Vector>, da: seq<int>, R: Matrix, m: UserModel, d: Dims)
    requires Inverting(m, d) && |da| == |Z| && IsMatrix(P, |x|, |x|)
    ensures var (x', P') := WithNewLandmarks(x, P, Z, da, R, m, d);
      |x'| == |x| + d.feat * NewCount(da) && IsMatrix(P', |x'|, |x'|)
  {
    var r := WithNewLandmarks(x, P, Z, da, R, m, d);
    var k := NewCount(da);
    assert |r.0| + d.veh == |x| + Offset(d, k);
    OffsetIsProduct(d, k);
    assert |r.0| == |x| + d.feat * k;
  }
}
