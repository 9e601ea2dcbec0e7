/** The innovation covariance `S = H P Hᵀ + R` of the predicted
    observations, built from the sparse Jacobian blocks, and the landmarks
    the data association adds to the prediction list.

    `S` is held as its grid of `obs`-by-`obs` blocks: entry
    `(obs*i + a, obs*j + b)` of the matrix is `S[i][j][a][b]`. */
module KalmanInnovation {
  import opened Matrices
  import opened KalmanTypes


  /** `Sij` before the noise: `Hx_i Pvv Hx_jᵀ + Hy_i P(yi,v) Hx_jᵀ +
      Hx_i P(v,yj) Hy_jᵀ + Hy_i P(yi,yj) Hy_jᵀ` for landmarks `li`, `lj`. */
  function CrossInnovation(P: Matrix, Hxi: Matrix, Hyi: Matrix, Hxj: Matrix, Hyj: Matrix, li: nat, lj: nat, d: Dims): (Sij: Matrix)
    ensures IsMatrix(Sij, d.obs, d.obs)
  {
    var v, o, f := d.veh, d.obs, d.feat;
    var Pvv := Block(P, 0, 0, v, v);
    var Pyiv := Block(P, Offset(d, li), 0, f, v);
    var Pvyj := Block(P, 0, Offset(d, lj), v, f);
    var Pyiyj := Block(P, Offset(d, li), Offset(d, lj), f, f);
    Add(Add(Add(Triple(Hxi, Pvv, Hxj, o, v, v, o), Triple(Hyi, Pyiv, Hxj, o, f, v, o), o, o),
            Triple(Hxi, Pvyj, Hyj, o, v, f, o), o, o),
        Triple(Hyi, Pyiyj, Hyj, o, f, f, o), o, o)
  }

  /** Block (i, j) before the noise, for the i-th and j-th predicted landmarks. */
  function BlockOf(P: Matrix, Hxs: seq<Matrix>, Hys: seq<Matrix>, idxs: seq<nat>, d: Dims, i: nat, j: nat): (Sij: Matrix)
    requires i < |idxs| && j < |idxs| && |Hxs| == |Hys| == |idxs|
    ensures IsMatrix(Sij, d.obs, d.obs)
  {
    CrossInnovation(P, Hxs[i], Hys[i], Hxs[j], Hys[j], idxs[i], idxs[j], d)
  }

  /** Block (i, j) of the SLAM innovation grid as the filter builds it:
      blocks above the diagonal computed, those below copied transposed,
      `R` added once to each diagonal block. */
  function GridBlock(P: Matrix, Hxs: seq<Matrix>, Hys: seq<Matrix>, idxs: seq<nat>, R: Matrix, d: Dims, i: nat, j: nat): (B: Matrix)
    requires i < |idxs| && j < |idxs| && |Hxs| == |Hys| == |idxs|
    ensures IsMatrix(B, d.obs, d.obs)
  {
    if i < j then BlockOf(P, Hxs, Hys, idxs, d, i, j)
    else if j < i then Transpose(BlockOf(P, Hxs, Hys, idxs, d, j, i), d.obs, d.obs)
    else Add(BlockOf(P, Hxs, Hys, idxs, d, i, i), R, d.obs, d.obs)
  }

  /** The SLAM innovation grid. */
  function InnovationGrid(P: Matrix, Hxs: seq<Matrix>, Hys: seq<Matrix>, idxs: seq<nat>, R: Matrix, d: Dims): (S: seq<seq<Matrix>>)
    requires |Hxs| == |Hys| == |idxs|
    ensures Grid(S, |idxs|, d.obs)
    ensures forall i, j :: 0 <= i < |idxs| && 0 <= j < |idxs| ==> S[i][j] == GridBlock(P, Hxs, Hys, idxs, R, d, i, j)
  {
    seq(|idxs|, i requires 0 <= i < |idxs| => seq(|idxs|, j requires 0 <= j < |idxs| => GridBlock(P, Hxs, Hys, idxs, R, d, i, j)))
  }

  /** The non-SLAM innovation: one block, `Hx P Hxᵀ + R` over the whole state. */
  function NonSlamInnovation(P: Matrix, Hx: Matrix, R: Matrix, n: nat, o: nat): (S: seq<seq<Matrix>>)
    ensures Grid(S, 1, o)
  {
    [[Add(Triple(Hx, P, Hx, o, n, n, o), R, o, o)]]
  }

  /** `S` is an N-by-N grid of o-by-o blocks. */
  predicate Grid(S: seq<seq<Matrix>>, N: nat, o: nat)
  {
    |S| == N && forall i :: 0 <= i < N ==> |S[i]| == N && forall j :: 0 <= j < N ==> IsMatrix(S[i][j], o, o)
  }

  /** Grids are equal when their blocks are. */
  lemma GridExt(S: seq<seq<Matrix>>, G: seq<seq<Matrix>>, N: nat)
    requires |S| == |G| == N
    requires forall a :: 0 <= a < N ==> |S[a]| == |G[a]| == N
    requires forall a, b :: 0 <= a < N && 0 <= b < N ==> S[a][b] == G[a][b]
    ensures S == G
  {
    forall a | 0 <= a < N
      ensures S[a] == G[a]
    {
    }
  }

  /** The matrix the grid stands for is symmetric. */
  predicate BlockSymmetric(S: seq<seq<Matrix>>, N: nat, o: nat)
    requires Grid(S, N, o)
  {
    forall i, j, a, b :: 0 <= i < N && 0 <= j < N && 0 <= a < o && 0 <= b < o ==> S[i][j][a][b] == S[j][i][b][a]
  }

  // ---------------------------------------------------------------------
  // Symmetry

  /** A symmetric square matrix reads the same both ways everywhere. */
  lemma AtSymmetric(P: Matrix, n: nat, r: int, c: int)
    requires IsMatrix(P, n, n) && Symmetric(P, n)
    ensures At(P, r, c) == At(P, c, r)
  {
  }

  /** The transpose of a block of a symmetric matrix is the mirrored block. */
  lemma BlockTranspose(P: Matrix, n: nat, r0: nat, c0: nat, h: nat, w: nat)
    requires IsMatrix(P, n, n) && Symmetric(P, n)
    ensures Transpose(Block(P, r0, c0, h, w), h, w) == Block(P, c0, r0, w, h)
  {
    var T := Transpose(Block(P, r0, c0, h, w), h, w);
    forall i, j | 0 <= i < w && 0 <= j < h
      ensures T[i][j] == Block(P, c0, r0, w, h)[i][j]
    {
      AtSymmetric(P, n, r0 + j, c0 + i);
    }
    MatrixExt(T, Block(P, c0, r0, w, h), w, h);
  }

  /** For a symmetric `P`, `Sij` is the transpose of `Sji`: the four terms
      of one are the transposes of the four terms of the other. */
  lemma CrossInnovationTranspose(P: Matrix, n: nat, Hxi: Matrix, Hyi: Matrix, Hxj: Matrix, Hyj: Matrix, li: nat, lj: nat, d: Dims, a: nat, b: nat)
    requires IsMatrix(P, n, n) && Symmetric(P, n) && a < d.obs && b < d.obs
    ensures CrossInnovation(P, Hxi, Hyi, Hxj, Hyj, li, lj, d)[a][b]
         == CrossInnovation(P, Hxj, Hyj, Hxi, Hyi, lj, li, d)[b][a]
  {
    var v, o, f := d.veh, d.obs, d.feat;
    var oi, oj := Offset(d, li), Offset(d, lj);
    BlockTranspose(P, n, 0, 0, v, v);
    TripleTranspose(Hxi, Block(P, 0, 0, v, v), Hxj, o, v, v, o, a, b);
    BlockTranspose(P, n, oi, 0, f, v);
    TripleTranspose(Hyi, Block(P, oi, 0, f, v), Hxj, o, f, v, o, a, b);
    BlockTranspose(P, n, 0, oj, v, f);
    TripleTranspose(Hxi, Block(P, 0, oj, v, f), Hyj, o, v, f, o, a, b);
    BlockTranspose(P, n, oi, oj, f, f);
    TripleTranspose(Hyi, Block(P, oi, oj, f, f), Hyj, o, f, f, o, a, b);
  }

  /** With a symmetric `P` and `R`, the grid the filter builds from the upper
      triangle is symmetric. */
  lemma InnovationGridSymmetric(P: Matrix, n: nat, Hxs: seq<Matrix>, Hys: seq<Matrix>, idxs: seq<nat>, R: Matrix, d: Dims)
    requires |Hxs| == |Hys| == |idxs|
    requires IsMatrix(P, n, n) && Symmetric(P, n) && IsMatrix(R, d.obs, d.obs) && Symmetric(R, d.obs)
    ensures BlockSymmetric(InnovationGrid(P, Hxs, Hys, idxs, R, d), |idxs|, d.obs)
  {
    var S := InnovationGrid(P, Hxs, Hys, idxs, R, d);
    forall i, j, a, b | 0 <= i < |idxs| && 0 <= j < |idxs| && 0 <= a < d.obs && 0 <= b < d.obs
      ensures S[i][j][a][b] == S[j][i][b][a]
    {
      if i == j {
        CrossInnovationTranspose(P, n, Hxs[i], Hys[i], Hxs[i], Hys[i], idxs[i], idxs[i], d, a, b);
        assert S[i][i][a][b] == BlockOf(P, Hxs, Hys, idxs, d, i, i)[a][b] + At(R, a, b);
      } else if i < j {
        assert S[j][i][b][a] == At(BlockOf(P, Hxs, Hys, idxs, d, i, j), a, b);
      } else {
        assert S[i][j][a][b] == At(BlockOf(P, Hxs, Hys, idxs, d, j, i), b, a);
      }
    }
  }

  /** With a symmetric `P`, copying the transposed upper blocks loses
      nothing: every block of the grid is `Sij` (plus `R` on the diagonal),
      as if the whole of `H P Hᵀ + R` had been computed. */
  lemma InnovationGridIsFullProduct(P: Matrix, n: nat, Hxs: seq<Matrix>, Hys: seq<Matrix>, idxs: seq<nat>, R: Matrix, d: Dims, i: nat, j: nat)
    requires |Hxs| == |Hys| == |idxs| && i < |idxs| && j < |idxs|
    requires IsMatrix(P, n, n) && Symmetric(P, n)
    ensures InnovationGrid(P, Hxs, Hys, idxs, R, d)[i][j]
         == if i == j then Add(BlockOf(P, Hxs, Hys, idxs, d, i, i), R, d.obs, d.obs) else BlockOf(P, Hxs, Hys, idxs, d, i, j)
  {
    if j < i {
      var T := Transpose(BlockOf(P, Hxs, Hys, idxs, d, j, i), d.obs, d.obs);
      forall a, b | 0 <= a < d.obs && 0 <= b < d.obs
        ensures T[a][b] == BlockOf(P, Hxs, Hys, idxs, d, i, j)[a][b]
      {
        CrossInnovationTranspose(P, n, Hxs[j], Hys[j], Hxs[i], Hys[i], idxs[j], idxs[i], d, b, a);
      }
      MatrixExt(T, BlockOf(P, Hxs, Hys, idxs, d, i, j), d.obs, d.obs);
    }
  }

  /** With a symmetric `P` and `R`, the non-SLAM innovation is symmetric. */
  lemma NonSlamInnovationSymmetric(P: Matrix, Hx: Matrix, R: Matrix, n: nat, o: nat)
    requires IsMatrix(P, n, n) && Symmetric(P, n) && Symmetric(R, o)
    ensures BlockSymmetric(NonSlamInnovation(P, Hx, R, n, o), 1, o)
  {
    SandwichSymmetric(Hx, P, o, n);
  }

  // ---------------------------------------------------------------------
  // The data-association retry

  /** The associations to landmarks (`>= 0`) that are absent from the
      prediction list, in order of appearance, repeats kept. */
  function Missing(da: seq<int>, idxs: seq<nat>): (r: seq<nat>)
    ensures forall k :: 0 <= k < |r| ==> r[k] !in idxs
    ensures |r| <= |da|
  {
    if |da| == 0 then []
    else
      var last := da[|da| - 1];
      Missing(da[..|da| - 1], idxs) + if last >= 0 && last as nat !in idxs then [last as nat] else []
  }

  /** Every landmark association is either predicted or reported missing,
      and every reported landmark comes from an association. */
  lemma {:induction false} MissingIsExact(da: seq<int>, idxs: seq<nat>)
    ensures forall k :: 0 <= k < |da| && da[k] >= 0 ==> da[k] as nat in idxs || da[k] as nat in Missing(da, idxs)
    ensures forall l :: l in Missing(da, idxs) ==> l as int in da && l !in idxs
  {
    if |da| > 0 {
      var init := da[..|da| - 1];
      MissingIsExact(init, idxs);
      forall k | 0 <= k < |da| && da[k] >= 0
        ensures da[k] as nat in idxs || da[k] as nat in Missing(da, idxs)
      {
        if k < |da| - 1 {
          assert da[k] == init[k];
        }
      }
      forall l | l in Missing(da, idxs)
        ensures l as int in da
      {
        if l in Missing(init, idxs) {
          var k :| 0 <= k < |init| && init[k] == l as int;
          assert da[k] == l as int;
        }
      }
    }
  }

  /** After the missing landmarks are appended, none is missing: the retry
      loop's second pass on the same associations exits. */
  lemma AppendingMissingCloses(da: seq<int>, idxs: seq<nat>)
    ensures Missing(da, idxs + Missing(da, idxs)) == []
  {
    MissingIsExact(da, idxs);
    var grown := idxs + Missing(da, idxs);
    MissingNone(da, grown);
  }

  /** Nothing is missing when every landmark association is predicted. */
  lemma {:induction false} MissingNone(da: seq<int>, idxs: seq<nat>)
    requires forall k :: 0 <= k < |da| && da[k] >= 0 ==> da[k] as nat in idxs
    ensures Missing(da, idxs) == []
  {
    if |da| > 0 {
      MissingNone(da[..|da| - 1], idxs);
    }
  }
}
