/** Three helpers of the computer-vision utilities: the default intrinsic
    matrix of the two known cameras, the list of matched 3D landmarks of two
    landmark clouds (matched by ID), and the masks that blank a square window
    around every matched feature. */
module VisionUtils {

  datatype Error = UnknownCameraIndex(camIndex: nat) | EmptyMatchList

  datatype Result<T> = Ok(value: T) | Err(error: Error)

  // ---------------------------------------------------------------------
  // defaultIntrinsicParamsMatrix
  // ---------------------------------------------------------------------

  /** A 3x3 matrix, row by row. */
  type Matrix3 = seq<seq<real>>

  /** `buildIntrinsicParamsMatrix`: focal lengths on the diagonal, the optical
      centre in the last column, 1 in the corner, 0 elsewhere. */
  function IntrinsicMatrix(fx: real, fy: real, cx: real, cy: real): (a: Matrix3)
    ensures |a| == 3 && forall i :: 0 <= i < 3 ==> |a[i]| == 3
    ensures a[0][0] == fx && a[1][1] == fy && a[2][2] == 1.0
    ensures a[0][2] == cx && a[1][2] == cy
    ensures a[0][1] == 0.0 && a[1][0] == 0.0 && a[2][0] == 0.0 && a[2][1] == 0.0
  {
    [[fx, 0.0, cx], [0.0, fy, cy], [0.0, 0.0, 1.0]]
  }

  /** The normalized calibration of each known camera: (fx, fy, cx, cy). */
  datatype Calibration = Calibration(fx: real, fy: real, cx: real, cy: real)

  /** Camera 0 is the Bumblebee, camera 1 the Sony; no other index is known. */
  function KnownCalibration(camIndex: nat): (r: Result<Calibration>)
    ensures r.Ok? <==> camIndex <= 1
    ensures r.Err? ==> r.error == UnknownCameraIndex(camIndex)
  {
    if camIndex == 0 then Ok(Calibration(0.79345, 1.05793, 0.55662, 0.52692))
    else if camIndex == 1 then Ok(Calibration(0.95666094, 1.3983423, 0.54626328, 0.4939191))
    else Err(UnknownCameraIndex(camIndex))
  }

  /** `defaultIntrinsicParamsMatrix`: the known camera's normalized calibration
      scaled by the image resolution; an unknown camera index is an error. */
  function DefaultIntrinsicParamsMatrix(camIndex: nat, resX: nat, resY: nat): (r: Result<Matrix3>)
    ensures r.Ok? <==> camIndex == 0 || camIndex == 1
    ensures r.Err? ==> r.error == UnknownCameraIndex(camIndex)
    ensures r.Ok? ==> var c := KnownCalibration(camIndex).value;
      r.value == IntrinsicMatrix(resX as real * c.fx, resY as real * c.fy, resX as real * c.cx, resY as real * c.cy)
  {
    match KnownCalibration(camIndex)
    case Err(e) => Err(e)
    case Ok(c) => Ok(IntrinsicMatrix(resX as real * c.fx, resY as real * c.fy, resX as real * c.cx, resY as real * c.cy))
  }

  /** The principal point of a known camera lies inside the image: both
      normalized centre coordinates are between 0 and 1. */
  lemma KnownCentresInsideImage(camIndex: nat, resX: nat, resY: nat)
    requires camIndex <= 1
    ensures var a := DefaultIntrinsicParamsMatrix(camIndex, resX, resY).value;
      0.0 <= a[0][2] <= resX as real && 0.0 <= a[1][2] <= resY as real
  {
  }

  // ---------------------------------------------------------------------
  // cloudsToMatchedList
  // ---------------------------------------------------------------------

  /** A landmark of a cloud: its ID and the mean of its 3D position. */
  datatype Landmark = Landmark(id: int, x: real, y: real, z: real)

  datatype Point3 = Point3(x: real, y: real, z: real)

  /** A matched pair: indices and coordinates in the global and the local frame. */
  datatype MatchingPair = MatchingPair(globalIdx: nat, localIdx: nat, global: Point3, local: Point3)

  /** The landmark ID cast to a 32-bit unsigned index (taken modulo 2^32). */
  function AsUnsigned32(id: int): (r: nat)
    ensures r < 0x1_0000_0000
    ensures 0 <= id < 0x1_0000_0000 ==> r == id
  {
    id % 0x1_0000_0000
  }

  /** The pair built for a landmark `l1` of the first cloud and `l2` of the second. */
  function PairOf(l1: Landmark, l2: Landmark): (p: MatchingPair)
    ensures p.globalIdx == p.localIdx == AsUnsigned32(l1.id)
    ensures p.global == Point3(l1.x, l1.y, l1.z) && p.local == Point3(l2.x, l2.y, l2.z)
  {
    MatchingPair(AsUnsigned32(l1.id), AsUnsigned32(l1.id), Point3(l1.x, l1.y, l1.z), Point3(l2.x, l2.y, l2.z))
  }

  /** The pairs of `l1` with every landmark of `cloud2` that has its ID, in the order of `cloud2`. */
  function MatchesOf(l1: Landmark, cloud2: seq<Landmark>): seq<MatchingPair>
  {
    if |cloud2| == 0 then []
    else
      var last := cloud2[|cloud2| - 1];
      MatchesOf(l1, cloud2[..|cloud2| - 1]) + (if l1.id == last.id then [PairOf(l1, last)] else [])
  }

  /** All matched pairs, in nested-loop order: the first cloud outside, the second inside. */
  function MatchedPairs(cloud1: seq<Landmark>, cloud2: seq<Landmark>): seq<MatchingPair>
  {
    if |cloud1| == 0 then []
    else MatchedPairs(cloud1[..|cloud1| - 1], cloud2) + MatchesOf(cloud1[|cloud1| - 1], cloud2)
  }

  /** `cloudsToMatchedList`: the matched pairs are appended to `outList`,
      which is not cleared first. */
  method CloudsToMatchedList(cloud1: seq<Landmark>, cloud2: seq<Landmark>, outList: seq<MatchingPair>)
    returns (out: seq<MatchingPair>)
    ensures out == outList + MatchedPairs(cloud1, cloud2)
  {
    out := outList;
    var i := 0;
    while i < |cloud1|
      invariant 0 <= i <= |cloud1|
      invariant out == outList + MatchedPairs(cloud1[..i], cloud2)
    {
      ghost var before := out;
      var j := 0;
      while j < |cloud2|
        invariant 0 <= j <= |cloud2|
        invariant out == before + MatchesOf(cloud1[i], cloud2[..j])
      {
        MatchesOfStep(cloud1[i], cloud2, j);
        if cloud1[i].id == cloud2[j].id {
          out := out + [PairOf(cloud1[i], cloud2[j])];
        }
        j := j + 1;
      }
      assert cloud2[..|cloud2|] == cloud2;
      MatchedPairsStep(cloud1, cloud2, i);
      i := i + 1;
    }
    assert cloud1[..|cloud1|] == cloud1;
  }

  lemma MatchesOfStep(l1: Landmark, cloud2: seq<Landmark>, j: nat)
    requires j < |cloud2|
    ensures MatchesOf(l1, cloud2[..j + 1]) ==
      MatchesOf(l1, cloud2[..j]) + (if l1.id == cloud2[j].id then [PairOf(l1, cloud2[j])] else [])
  {
    assert cloud2[..j + 1][..j] == cloud2[..j];
  }

  lemma MatchedPairsStep(cloud1: seq<Landmark>, cloud2: seq<Landmark>, i: nat)
    requires i < |cloud1|
    ensures MatchedPairs(cloud1[..i + 1], cloud2) == MatchedPairs(cloud1[..i], cloud2) + MatchesOf(cloud1[i], cloud2)
  {
    assert cloud1[..i + 1][..i] == cloud1[..i];
  }

  /** Every pair of `MatchesOf` comes from a landmark of `cloud2` with the same ID. */
  lemma {:induction false} MatchesOfSound(l1: Landmark, cloud2: seq<Landmark>, p: MatchingPair)
    requires p in MatchesOf(l1, cloud2)
    ensures exists j :: 0 <= j < |cloud2| && cloud2[j].id == l1.id && p == PairOf(l1, cloud2[j])
  {
    var n := |cloud2|;
    var last := cloud2[n - 1];
    if p in MatchesOf(l1, cloud2[..n - 1]) {
      MatchesOfSound(l1, cloud2[..n - 1], p);
      var j :| 0 <= j < n - 1 && cloud2[..n - 1][j].id == l1.id && p == PairOf(l1, cloud2[..n - 1][j]);
      assert cloud2[j] == cloud2[..n - 1][j];
    } else {
      assert p == PairOf(l1, last) && last.id == l1.id;
    }
  }

  /** Every landmark of `cloud2` with the ID of `l1` gives a pair of `MatchesOf`. */
  lemma {:induction false} MatchesOfComplete(l1: Landmark, cloud2: seq<Landmark>, j: nat)
    requires j < |cloud2| && cloud2[j].id == l1.id
    ensures PairOf(l1, cloud2[j]) in MatchesOf(l1, cloud2)
  {
    var n := |cloud2|;
    if j < n - 1 {
      assert cloud2[..n - 1][j] == cloud2[j];
      MatchesOfComplete(l1, cloud2[..n - 1], j);
    }
  }

  /** Every matched pair joins a landmark of the first cloud and a landmark of
      the second cloud with equal IDs: the global side from the first cloud,
      the local side from the second, and both indices the (cast) ID. */
  lemma {:induction false} MatchedPairsSound(cloud1: seq<Landmark>, cloud2: seq<Landmark>, p: MatchingPair)
    requires p in MatchedPairs(cloud1, cloud2)
    ensures exists i, j ::
      0 <= i < |cloud1| && 0 <= j < |cloud2| && cloud1[i].id == cloud2[j].id && p == PairOf(cloud1[i], cloud2[j])
  {
    var n := |cloud1|;
    if p in MatchedPairs(cloud1[..n - 1], cloud2) {
      MatchedPairsSound(cloud1[..n - 1], cloud2, p);
      var i, j :| 0 <= i < n - 1 && 0 <= j < |cloud2| && cloud1[..n - 1][i].id == cloud2[j].id
        && p == PairOf(cloud1[..n - 1][i], cloud2[j]);
      assert cloud1[i] == cloud1[..n - 1][i];
    } else {
      MatchesOfSound(cloud1[n - 1], cloud2, p);
    }
  }

  /** Every pair of landmarks with equal IDs, one from each cloud, is matched. */
  lemma {:induction false} MatchedPairsComplete(cloud1: seq<Landmark>, cloud2: seq<Landmark>, i: nat, j: nat)
    requires i < |cloud1| && j < |cloud2| && cloud1[i].id == cloud2[j].id
    ensures PairOf(cloud1[i], cloud2[j]) in MatchedPairs(cloud1, cloud2)
  {
    var n := |cloud1|;
    var pair := PairOf(cloud1[i], cloud2[j]);
    assert MatchedPairs(cloud1, cloud2) == MatchedPairs(cloud1[..n - 1], cloud2) + MatchesOf(cloud1[n - 1], cloud2);
    if i < n - 1 {
      assert cloud1[..n - 1][i] == cloud1[i];
      MatchedPairsComplete(cloud1[..n - 1], cloud2, i, j);
      assert pair in MatchedPairs(cloud1[..n - 1], cloud2);
    } else {
      MatchesOfComplete(cloud1[i], cloud2, j);
      assert pair in MatchesOf(cloud1[n - 1], cloud2);
    }
  }

  // ---------------------------------------------------------------------
  // generateMask
  // ---------------------------------------------------------------------

  /** A matched feature: the keypoint in the first image and in the second. */
  datatype MatchedFeature = MatchedFeature(x1: real, y1: real, x2: real, y2: real)

  /** A C++ cast of a floating-point value to `int`: truncation toward zero. */
  function TruncateToInt(v: real): (r: int)
    ensures v >= 0.0 ==> r as real <= v < r as real + 1.0
    ensures v < 0.0 ==> r as real - 1.0 < v <= r as real
  {
    if v >= 0.0 then v.Floor else -((-v).Floor)
  }

  /** The half window `(int)(0.5 * wSize)`: half of `wSize` rounded toward zero. */
  function HalfWindow(wSize: int): (hw: int)
    ensures wSize >= 0 ==> hw == wSize / 2
    ensures wSize < 0 ==> hw <= 0
    ensures 2 * hw <= wSize || wSize < 0
  {
    TruncateToInt(0.5 * wSize as real)
  }

  /** Whether cell (row, col) is cleared by the window at (px, py): a column
      offset in [iLo, iHi), a row offset in [jLo, jHi), inside cols x rows. */
  predicate Hit(px: int, py: int, iLo: int, iHi: int, jLo: int, jHi: int, cols: int, rows: int, row: int, col: int)
  {
    0 <= col < cols && 0 <= row < rows && iLo <= col - px < iHi && jLo <= row - py < jHi
  }

  /** Whether (row, col) lies in the window of a feature among the first `k`,
      in the first image (`second` false) or the second (`second` true). */
  predicate Covered(list: seq<MatchedFeature>, k: nat, second: bool, hw: int, cols: int, rows: int, row: int, col: int)
    requires k <= |list|
  {
    exists f :: 0 <= f < k && WindowHit(list[f], second, hw, cols, rows, row, col)
  }

  predicate WindowHit(m: MatchedFeature, second: bool, hw: int, cols: int, rows: int, row: int, col: int)
  {
    var px := TruncateToInt(if second then m.x2 else m.x1);
    var py := TruncateToInt(if second then m.y2 else m.y1);
    Hit(px, py, -hw, hw, -hw, hw, cols, rows, row, col)
  }

  /** Clears, in `mask`, the cells of the window of half size `hw` around
      (px, py) that lie inside `cols` x `rows`; nothing else changes. */
  method ClearWindow(mask: array2<bool>, px: int, py: int, hw: int, cols: int, rows: int)
    requires cols <= mask.Length1 && rows <= mask.Length0
    modifies mask
    ensures forall r, c :: 0 <= r < mask.Length0 && 0 <= c < mask.Length1 ==>
      mask[r, c] == (old(mask[r, c]) && !Hit(px, py, -hw, hw, -hw, hw, cols, rows, r, c))
  {
    var ii := -hw;
    while ii < hw
      invariant -hw <= ii && (ii <= hw || ii == -hw)
      invariant forall r, c :: 0 <= r < mask.Length0 && 0 <= c < mask.Length1 ==>
        mask[r, c] == (old(mask[r, c]) && !Hit(px, py, -hw, ii, -hw, hw, cols, rows, r, c))
    {
      var jj := -hw;
      while jj < hw
        invariant -hw <= jj <= hw
        invariant forall r, c :: 0 <= r < mask.Length0 && 0 <= c < mask.Length1 ==>
          mask[r, c] == (old(mask[r, c]) && !Hit(px, py, -hw, ii, -hw, hw, cols, rows, r, c)
                                         && !Hit(px, py, ii, ii + 1, -hw, jj, cols, rows, r, c))
      {
        var idx := px + ii;
        var idy := py + jj;
        if idx >= 0 && idy >= 0 && idx < cols && idy < rows {
          mask[idy, idx] := false;
        }
        jj := jj + 1;
      }
      ii := ii + 1;
    }
  }

  /** `generateMask`, with each mask clipped to its own size: for every matched
      feature, the window of half size `(int)(wSize/2)` (offsets in
      [-hw, hw)) around the truncated keypoint is set to false, in `mask1`
      for the first image and in `mask2` for the second; every other cell
      keeps its value. An empty list is an error and changes nothing. */
  method GenerateMask(list: seq<MatchedFeature>, mask1: array2<bool>, mask2: array2<bool>, wSize: int)
    returns (r: Result<()>)
    requires mask1 != mask2
    modifies mask1, mask2
    ensures r.Err? <==> |list| == 0
    ensures r.Err? ==> r.error == EmptyMatchList
    ensures var hw := HalfWindow(wSize);
      forall row, col :: 0 <= row < mask1.Length0 && 0 <= col < mask1.Length1 ==>
        mask1[row, col] == (old(mask1[row, col]) && !Covered(list, |list|, false, hw, mask1.Length1, mask1.Length0, row, col))
    ensures var hw := HalfWindow(wSize);
      forall row, col :: 0 <= row < mask2.Length0 && 0 <= col < mask2.Length1 ==>
        mask2[row, col] == (old(mask2[row, col]) && !Covered(list, |list|, true, hw, mask2.Length1, mask2.Length0, row, col))
  {
    if |list| == 0 {
      return Err(EmptyMatchList);
    }
    var hw := HalfWindow(wSize);
    var k := 0;
    while k < |list|
      invariant 0 <= k <= |list|
      invariant forall row, col :: 0 <= row < mask1.Length0 && 0 <= col < mask1.Length1 ==>
        mask1[row, col] == (old(mask1[row, col]) && !Covered(list, k, false, hw, mask1.Length1, mask1.Length0, row, col))
      invariant forall row, col :: 0 <= row < mask2.Length0 && 0 <= col < mask2.Length1 ==>
        mask2[row, col] == (old(mask2[row, col]) && !Covered(list, k, true, hw, mask2.Length1, mask2.Length0, row, col))
    {
      var m := list[k];
      ClearWindow(mask1, TruncateToInt(m.x1), TruncateToInt(m.y1), hw, mask1.Length1, mask1.Length0);
      ClearWindow(mask2, TruncateToInt(m.x2), TruncateToInt(m.y2), hw, mask2.Length1, mask2.Length0);
      CoveredStep(list, k, false, hw, mask1.Length1, mask1.Length0);
      CoveredStep(list, k, true, hw, mask2.Length1, mask2.Length0);
      k := k + 1;
    }
    r := Ok(());
  }

  /** Covering by the first k + 1 features is covering by the first k or by feature k. */
  lemma CoveredStep(list: seq<MatchedFeature>, k: nat, second: bool, hw: int, cols: int, rows: int)
    requires k < |list|
    ensures forall row, col :: Covered(list, k + 1, second, hw, cols, rows, row, col) <==>
      Covered(list, k, second, hw, cols, rows, row, col) || WindowHit(list[k], second, hw, cols, rows, row, col)
  {
  }

  /** A window with a non-positive half size clears nothing: a mask generated
      with `wSize` below 2 is left unchanged. */
  lemma SmallWindowClearsNothing(list: seq<MatchedFeature>, second: bool, wSize: int, cols: int, rows: int, row: int, col: int)
    requires wSize < 2
    ensures !Covered(list, |list|, second, HalfWindow(wSize), cols, rows, row, col)
  {
  }

  /** The cells `generateMask` writes in the second mask, as written: the
      clipping uses the size of the FIRST mask for both masks. */
  predicate WrittenInMask2AsWritten(list: seq<MatchedFeature>, wSize: int, mask1Cols: int, mask1Rows: int, row: int, col: int): (r: bool)
    ensures r ==> 0 <= row < mask1Rows && 0 <= col < mask1Cols
  {
    Covered(list, |list|, true, HalfWindow(wSize), mask1Cols, mask1Rows, row, col)
  }

  /** As written, a second mask smaller than the first is written outside its
      bounds: with a 10x10 first mask, a 5x5 second mask, a window size of 4
      and a feature at (7, 7) in the second image, cell (6, 6) is written,
      while clipping to the second mask's own size leaves it alone. */
  lemma Mask2ClippedByMask1Size()
    ensures var list := [MatchedFeature(1.0, 1.0, 7.0, 7.0)];
      WrittenInMask2AsWritten(list, 4, 10, 10, 6, 6) && !Covered(list, |list|, true, HalfWindow(4), 5, 5, 6, 6)
  {
    var list := [MatchedFeature(1.0, 1.0, 7.0, 7.0)];
    assert TruncateToInt(7.0) == 7;
    assert HalfWindow(4) == 2;
    assert WindowHit(list[0], true, 2, 10, 10, 6, 6);
  }

  /** With masks of the same size, the corrected clipping and the clipping as
      written select the same cells of the second mask. */
  lemma SameSizeMasksAgree(list: seq<MatchedFeature>, wSize: int, cols: int, rows: int, row: int, col: int)
    ensures WrittenInMask2AsWritten(list, wSize, cols, rows, row, col) <==>
      Covered(list, |list|, true, HalfWindow(wSize), cols, rows, row, col)
  {
  }
}
