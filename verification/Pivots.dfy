/** With enough measurement noise the elimination always finds a pivot, so no measurement is skipped. */
module Pivots {
  import opened Basics
  import opened Matrices
  import opened RowReduction
  import opened Covariance
  import Products

  /** The vector that the first col columns of W turn against column col, so that W takes it to zero above row col. */
  function Against(W: Mat, col: nat): (x: seq<real>)
    requires W.rows == W.cols && col < W.rows
    ensures |x| == W.rows
    ensures forall j :: 0 <= j < W.rows ==> x[j] == if j < col then -W.at[j][col] else if j == col then 1.0 else 0.0
  {
    seq(W.rows, j requires 0 <= j < W.rows => if j < col then -W.at[j][col] else if j == col then 1.0 else 0.0)
  }

  function Column(x: seq<real>): (X: Mat)
    ensures X.rows == |x| && X.cols == 1 && forall j :: 0 <= j < |x| ==> X.at[j][0] == x[j]
  {
    Tr(Row(x))
  }

  lemma ReducedTimes(W: Mat, col: nat, i: nat)
    requires W.rows == W.cols && col < W.rows && i < W.rows && UnitColumns(W, col)
    ensures Mul(W, Column(Against(W, col))).at[i][0] == if i < col then 0.0 else W.at[i][col]
  {
    var X := Column(Against(W, col));
    if i < col {
      ColDotTwo(W.at[i], X, 0, W.rows, i, col);
    } else {
      ColDotOne(W.at[i], X, 0, W.rows, col);
    }
  }

  /** Column i >= col of the left inverse is the unit column of the row that i stands for. */
  lemma InverseColumn(E: Mat, G: Mat, pi: seq<nat>, col: nat, k: nat, i: nat)
    requires G.rows == G.cols == E.rows && Unscaled(E, pi, col) && Mul(G, E) == Id(E.rows)
    requires col <= i < E.rows && k < E.rows
    ensures G.at[k][i] == if k == pi[i] then 1.0 else 0.0
  {
    ColDotOne(G.at[k], E, pi[i], E.rows, i);
    assert Mul(G, E).at[k][pi[i]] == G.at[k][i] * E.at[i][pi[i]];
  }

  /** What the vector is taken to by S: at most an unpivoted entry of W in any place. */
  lemma InnovationTimes(G: Mat, E: Mat, e: Mat, pi: seq<nat>, col: nat, k: nat)
    requires G.rows == G.cols == E.rows == e.rows && e.cols == 1 && Unscaled(E, pi, col) && Mul(G, E) == Id(E.rows)
    requires forall i :: 0 <= i < col < E.rows ==> e.at[i][0] == 0.0
    requires forall i :: col <= i < E.rows ==> Abs(e.at[i][0]) < TINY
    requires k < E.rows && col < E.rows
    ensures Abs(Mul(G, e).at[k][0]) < TINY
  {
    forall i | col <= i < E.rows ensures G.at[k][i] == if k == pi[i] then 1.0 else 0.0 {
      InverseColumn(E, G, pi, col, k, i);
    }
    if i :| col <= i < E.rows && pi[i] == k {
      ColDotOne(G.at[k], e, 0, E.rows, i);
    } else {
      forall i | 0 <= i < E.rows ensures G.at[k][i] == 0.0 || e.at[i][0] == 0.0 {
        assert i >= col ==> pi[i] != k;
      }
      ColDotZero(G.at[k], e, 0, E.rows);
    }
  }

  /** The quadratic form as a sum along the column. */
  lemma QuadColumn(x: seq<real>, S: Mat)
    requires |x| == S.rows == S.cols
    ensures Quad(x, S) == ColDot(x, Mul(S, Column(x)), 0, |x|)
  {
    MulAssoc(Row(x), S, Column(x));
  }

  /** A product with a small factor is at most half of it, and half of it times the square. */
  lemma Product(x: real, y: real, s: real, p: real)
    requires Abs(y) < TINY && s == x * x && p == x * y
    ensures s >= 0.0 && p <= 0.5 * TINY * (1.0 + s)
  {
    assert (x - 1.0) * (x - 1.0) == s - 2.0 * x + 1.0;
    assert (x + 1.0) * (x + 1.0) == s + 2.0 * x + 1.0;
    if x >= 0.0 {
      Products.Less(y, TINY, x, p, TINY * x);
    } else {
      Products.Less(-y, TINY, -x, p, TINY * -x);
    }
  }

  /** The noise on a square pays for it, and for m of them where the square is one. */
  lemma NoiseTerm(r: real, m: real, s: real, q: real)
    requires m >= 1.0 && r >= m * TINY && s >= 0.0 && q == r * s
    ensures q >= TINY * s && (s == 1.0 ==> q >= m * TINY)
  {
    Products.Less(TINY, r, s, TINY * s, q);
  }

  lemma SumStep(x: seq<real>, Y: Mat, R: seq<real>, k: nat, m: real) returns (t: real)
    requires |x| == |R| == Y.rows && Y.cols == 1 && k < |x| && m >= 1.0
    requires Abs(Y.at[k][0]) < TINY && R[k] >= m * TINY
    ensures ColDot(x, Y, 0, k + 1) - WeightedSquares(x, R, k + 1) == ColDot(x, Y, 0, k) - WeightedSquares(x, R, k) + t
    ensures t <= 0.5 * TINY && (x[k] == 1.0 ==> t < TINY - m * TINY)
  {
    var s := x[k] * x[k];
    t := x[k] * Y.at[k][0] - R[k] * s;
    Product(x[k], Y.at[k][0], s, x[k] * Y.at[k][0]);
    NoiseTerm(R[k], m, s, R[k] * s);
  }

  lemma {:induction false} SumBound(x: seq<real>, Y: Mat, R: seq<real>, col: nat, n: nat, m: real)
    requires |x| == |R| == Y.rows && Y.cols == 1 && n <= |x| && col < |x| && x[col] == 1.0 && m >= 1.0
    requires forall k :: 0 <= k < |x| ==> Abs(Y.at[k][0]) < TINY && R[k] >= m * TINY
    ensures var d := ColDot(x, Y, 0, n) - WeightedSquares(x, R, n);
            if n <= col then d <= 0.5 * TINY * n as real else d < TINY - m * TINY + 0.5 * TINY * (n - 1) as real
  {
    if n > 0 {
      SumBound(x, Y, R, col, n - 1, m);
      var t := SumStep(x, Y, R, n - 1, m);
    }
  }

  lemma NoiseShare(x: seq<real>, M: Mat, D: Mat, w: real)
    requires Psd(M) && |x| == M.rows == D.rows == D.cols && Quad(x, D) == w
    ensures Quad(x, Plus(M, 1.0, D)) >= w
  {
    QuadPlus(x, M, 1.0, D);
  }

  lemma NoiseBounds(P: Mat, H: Mat, R: seq<real>, x: seq<real>)
    requires Dims(P, H, R) && Psd(P) && |x| == |R|
    ensures Quad(x, Innovation(P, H, R)) >= WeightedSquares(x, R, |R|)
  {
    MulAssoc(H, P, Tr(H));
    PsdCongruence(H, P);
    QuadDiag(x, R);
    NoiseShare(x, Mul(H, Mul(P, Tr(H))), Diag(R), WeightedSquares(x, R, |R|));
  }

  lemma ReductionUndone(S: Mat, W: Mat, E: Mat, G: Mat, X: Mat)
    requires S.rows == S.cols == W.rows == W.cols == E.rows == E.cols == G.rows == G.cols == X.rows
    requires Mul(E, S) == W && Mul(G, E) == Id(S.rows)
    ensures Mul(S, X) == Mul(G, Mul(W, X))
  {
    MulAssoc(G, E, S);
    MulId(S);
    MulAssoc(G, W, X);
  }

  lemma StateHasPivot(P: Mat, H: Mat, R: seq<real>, W: Mat, E: Mat, G: Mat, pi: seq<nat>, col: nat)
    requires Dims(P, H, R) && Psd(P) && Noisy(R)
    requires Eliminated(Innovation(P, H, R), W, E, G, col) && Unscaled(E, pi, col) && col < |R|
    ensures exists i :: col <= i < |R| && Abs(W.at[i][col]) >= TINY
  {
    var S, x := Innovation(P, H, R), Against(W, col);
    var X, m := Column(x), |R| as real;
    var e := Mul(W, X);
    forall i | 0 <= i < |R| ensures e.at[i][0] == if i < col then 0.0 else W.at[i][col] {
      ReducedTimes(W, col, i);
    }
    if forall i :: col <= i < |R| ==> Abs(W.at[i][col]) < TINY {
      ReductionUndone(S, W, E, G, X);
      forall k | 0 <= k < |R| ensures Abs(Mul(S, X).at[k][0]) < TINY {
        InnovationTimes(G, E, e, pi, col, k);
      }
      QuadColumn(x, S);
      SumBound(x, Mul(S, X), R, col, |R|, m);
      NoiseBounds(P, H, R, x);
    }
  }

  /** Every noise variance is at least 1e-12 times the number of measurements. */
  predicate Noisy(R: seq<real>) {
    forall k :: 0 <= k < |R| ==> R[k] >= |R| as real * TINY
  }

  /** With that much noise every step of the elimination has a pivot. */
  lemma NoiseGivesPivots(P: Mat, H: Mat, R: seq<real>)
    requires Dims(P, H, R) && Psd(P) && Noisy(R)
    ensures !NoPivot(Innovation(P, H, R))
  {
    var S := Innovation(P, H, R);
    if NoPivot(S) {
      var W: Mat, E: Mat, G: Mat, pi: seq<nat>, col: nat :|
        Eliminated(S, W, E, G, col) && Unscaled(E, pi, col) && col < S.rows
        && forall i :: col <= i < S.rows ==> Abs(W.at[i][col]) < TINY;
      StateHasPivot(P, H, R, W, E, G, pi, col);
    }
  }
}
