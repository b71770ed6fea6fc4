/**
 The covariance algebra of the measurement update and of the prediction, as values.
 Dimensions are symbolic: P is n×n, H is m×n, R is the diagonal of the m×m measurement noise.
 */
module Covariance {
  import opened Matrices

  ghost predicate Dims(P: Mat, H: Mat, R: seq<real>) {
    P.rows == P.cols == H.cols && |R| == H.rows
  }

  /** S = H(PHᵀ) + diag(R). */
  function Innovation(P: Mat, H: Mat, R: seq<real>): (S: Mat)
    requires Dims(P, H, R)
    ensures S.rows == S.cols == |R|
  {
    Plus(Mul(H, Mul(P, Tr(H))), 1.0, Diag(R))
  }

  /** K = (PHᵀ)S⁻¹. */
  function Gain(P: Mat, H: Mat, Sinv: Mat): (K: Mat)
    requires P.rows == P.cols == H.cols && Sinv.rows == Sinv.cols == H.rows
    ensures K.rows == P.rows && K.cols == H.rows
  {
    Mul(Mul(P, Tr(H)), Sinv)
  }

  /** I − KH. */
  function Reduction(H: Mat, K: Mat): (A: Mat)
    requires K.rows == H.cols && K.cols == H.rows
    ensures A.rows == A.cols == H.cols
  {
    Plus(Id(H.cols), -1.0, Mul(K, H))
  }

  /** (I − KH)P(I − KH)ᵀ + K diag(R) Kᵀ. */
  function Joseph(P: Mat, H: Mat, R: seq<real>, K: Mat): (P': Mat)
    requires Dims(P, H, R) && K.rows == P.rows && K.cols == H.rows
    ensures P'.rows == P'.cols == P.rows
  {
    var A := Reduction(H, K);
    Plus(Mul(Mul(A, P), Tr(A)), 1.0, Mul(Mul(K, Diag(R)), Tr(K)))
  }

  function Predicted(F: Mat, P: Mat, Q: Mat): (P': Mat)
    requires F.rows == F.cols == P.rows == P.cols == Q.rows == Q.cols
    ensures P'.rows == P'.cols == P.rows
  {
    Plus(Mul(Mul(F, P), Tr(F)), 1.0, Q)
  }

  /** Each off-diagonal pair replaced by its mean. */
  function Averaged(P: Mat): (P': Mat)
    requires P.rows == P.cols
    ensures P'.rows == P'.cols == P.rows
    ensures forall i, j :: 0 <= i < P.rows && 0 <= j < P.rows ==>
              P'.at[i][j] == if i == j then P.at[i][i] else 0.5 * (P.at[i][j] + P.at[j][i])
  {
    Matrix(P.rows, P.rows,
           seq(P.rows, i requires 0 <= i < P.rows =>
             seq(P.rows, j requires 0 <= j < P.rows =>
               if i == j then P.at[i][i] else 0.5 * (P.at[i][j] + P.at[j][i]))))
  }

  // ---- the innovation covariance ----

  lemma InnovationSymmetric(P: Mat, H: Mat, R: seq<real>)
    requires Dims(P, H, R) && Symmetric(P)
    ensures Symmetric(Innovation(P, H, R))
  {
    MulAssoc(H, P, Tr(H));
    SymmetricCongruence(H, P);
    TrDiag(R);
    SymmetricPlus(Mul(H, Mul(P, Tr(H))), 1.0, Diag(R));
  }

  lemma InnovationPsd(P: Mat, H: Mat, R: seq<real>)
    requires Dims(P, H, R) && Psd(P)
    requires forall k :: 0 <= k < |R| ==> R[k] >= 0.0
    ensures Psd(Innovation(P, H, R))
  {
    MulAssoc(H, P, Tr(H));
    PsdCongruence(H, P);
    PsdDiag(R);
    PsdPlus(Mul(H, Mul(P, Tr(H))), Diag(R));
  }

  // ---- the Joseph form for any gain ----

  /** A P Aᵀ for A = I − LH, multiplied out: P − L(HP) − (PHᵀ)Lᵀ + L(H(PHᵀ))Lᵀ. */
  lemma CongruenceExpanded(P: Mat, H: Mat, L: Mat)
    requires P.rows == P.cols == H.cols == L.rows && L.cols == H.rows
    ensures var A := Reduction(H, L);
            var AP := Plus(P, -1.0, Mul(L, Mul(H, P)));
            var W := Plus(Mul(P, Tr(H)), -1.0, Mul(L, Mul(H, Mul(P, Tr(H)))));
            && Mul(A, P) == AP
            && Mul(A, Mul(P, Tr(H))) == W
            && Mul(Mul(A, P), Tr(A)) == Plus(AP, -1.0, Mul(W, Tr(L)))
  {
    var A, LH, PHt := Reduction(H, L), Mul(L, H), Mul(P, Tr(H));
    MulPlusLeft(Id(P.rows), -1.0, LH, P);
    MulId(P);
    MulAssoc(L, H, P);
    MulPlusLeft(Id(P.rows), -1.0, LH, PHt);
    MulId(PHt);
    MulAssoc(L, H, PHt);
    TrPlus(Id(P.rows), -1.0, LH);
    TrDiag(seq(P.rows, _ => 1.0));
    TrMul(L, H);
    var AP := Mul(A, P);
    MulPlusRight(AP, Id(P.rows), -1.0, Mul(Tr(H), Tr(L)));
    MulId(AP);
    MulAssoc(AP, Tr(H), Tr(L));
    MulAssoc(A, P, Tr(H));
  }

  /** With KS = PHᵀ, W of the expansion for the gain K is K diag(R). */
  lemma GainCancels(P: Mat, H: Mat, R: seq<real>, K: Mat)
    requires Dims(P, H, R) && K.rows == P.rows && K.cols == H.rows
    requires Mul(K, Innovation(P, H, R)) == Mul(P, Tr(H))
    ensures Plus(Mul(P, Tr(H)), -1.0, Mul(K, Mul(H, Mul(P, Tr(H))))) == Mul(K, Diag(R))
  {
    var HPHt := Mul(H, Mul(P, Tr(H)));
    MulPlusRight(K, HPHt, 1.0, Diag(R));
    Ext(Plus(Mul(P, Tr(H)), -1.0, Mul(K, HPHt)), Mul(K, Diag(R)));
  }

  lemma GainTimesInnovation(P: Mat, H: Mat, R: seq<real>, Sinv: Mat)
    requires Dims(P, H, R) && Sinv.rows == Sinv.cols == H.rows
    requires Mul(Sinv, Innovation(P, H, R)) == Id(H.rows)
    ensures Mul(Gain(P, H, Sinv), Innovation(P, H, R)) == Mul(P, Tr(H))
  {
    MulAssoc(Mul(P, Tr(H)), Sinv, Innovation(P, H, R));
    MulId(Mul(P, Tr(H)));
  }

  /** For the gain the filter computes, the Joseph form is (I − KH)P. */
  lemma JosephIsReducedCovariance(P: Mat, H: Mat, R: seq<real>, Sinv: Mat)
    requires Dims(P, H, R) && Sinv.rows == Sinv.cols == H.rows
    requires Mul(Sinv, Innovation(P, H, R)) == Id(H.rows)
    ensures var K := Gain(P, H, Sinv); Joseph(P, H, R, K) == Mul(Reduction(H, K), P)
  {
    var K := Gain(P, H, Sinv);
    GainTimesInnovation(P, H, R, Sinv);
    CongruenceExpanded(P, H, K);
    GainCancels(P, H, R, K);
    Ext(Joseph(P, H, R, K), Mul(Reduction(H, K), P));
  }

  /** HP is SKᵀ, the transpose of PHᵀ = KS. */
  lemma GainTransposed(P: Mat, H: Mat, R: seq<real>, K: Mat)
    requires Dims(P, H, R) && Symmetric(P) && K.rows == P.rows && K.cols == H.rows
    requires Mul(K, Innovation(P, H, R)) == Mul(P, Tr(H))
    ensures Mul(H, P) == Mul(Innovation(P, H, R), Tr(K))
  {
    InnovationSymmetric(P, H, R);
    TrMul(P, Tr(H));
    TrTr(H);
    TrMul(K, Innovation(P, H, R));
  }

  /** What the update takes off the covariance is KSKᵀ. */
  lemma CovarianceDrop(P: Mat, H: Mat, R: seq<real>, Sinv: Mat)
    requires Dims(P, H, R) && Symmetric(P) && Sinv.rows == Sinv.cols == H.rows
    requires Mul(Sinv, Innovation(P, H, R)) == Id(H.rows)
    ensures var K := Gain(P, H, Sinv);
            Plus(P, -1.0, Joseph(P, H, R, K)) == Mul(Mul(K, Innovation(P, H, R)), Tr(K))
  {
    var K, S := Gain(P, H, Sinv), Innovation(P, H, R);
    GainTimesInnovation(P, H, R, Sinv);
    JosephIsReducedCovariance(P, H, R, Sinv);
    CongruenceExpanded(P, H, K);
    GainTransposed(P, H, R, K);
    MulAssoc(K, S, Tr(K));
    Ext(Plus(P, -1.0, Joseph(P, H, R, K)), Mul(Mul(K, S), Tr(K)));
  }

  /** A measurement never raises the covariance, in the quadratic-form order. */
  lemma {:induction false} MeasurementNeverIncreases(P: Mat, H: Mat, R: seq<real>, Sinv: Mat, x: seq<real>)
    requires Dims(P, H, R) && Symmetric(P) && Psd(P) && Sinv.rows == Sinv.cols == H.rows
    requires forall k :: 0 <= k < |R| ==> R[k] >= 0.0
    requires Mul(Sinv, Innovation(P, H, R)) == Id(H.rows)
    requires |x| == P.rows
    ensures Quad(x, Joseph(P, H, R, Gain(P, H, Sinv))) <= Quad(x, P)
  {
    var K, S := Gain(P, H, Sinv), Innovation(P, H, R);
    CovarianceDrop(P, H, R, Sinv);
    InnovationPsd(P, H, R);
    SpreadDrop(P, Joseph(P, H, R, K), K, S, x);
  }

  lemma {:induction false} SpreadDrop(P: Mat, J: Mat, K: Mat, S: Mat, x: seq<real>)
    requires P.rows == P.cols == J.rows == J.cols == K.rows == |x| && S.rows == S.cols == K.cols && Psd(S)
    requires Plus(P, -1.0, J) == Mul(Mul(K, S), Tr(K))
    ensures Quad(x, J) <= Quad(x, P)
  {
    QuadPlus(x, P, -1.0, J);
    QuadCongruence(x, K, S);
  }

  /** For any other gain L the Joseph form exceeds the filter's by (L − K)S(L − K)ᵀ. */
  lemma GainGap(P: Mat, H: Mat, R: seq<real>, Sinv: Mat, L: Mat)
    requires Dims(P, H, R) && Symmetric(P) && Sinv.rows == Sinv.cols == H.rows
    requires Mul(Sinv, Innovation(P, H, R)) == Id(H.rows)
    requires L.rows == P.rows && L.cols == H.rows
    ensures var K := Gain(P, H, Sinv);
            var D := Plus(L, -1.0, K);
            Joseph(P, H, R, L) == Plus(Joseph(P, H, R, K), 1.0, Mul(Mul(D, Innovation(P, H, R)), Tr(D)))
  {
    var K, S, HPHt := Gain(P, H, Sinv), Innovation(P, H, R), Mul(H, Mul(P, Tr(H)));
    var D := Plus(L, -1.0, K);
    GainTimesInnovation(P, H, R, Sinv);
    CovarianceDrop(P, H, R, Sinv);
    GainTransposed(P, H, R, K);
    // the Joseph form of L, multiplied out over S
    CongruenceExpanded(P, H, L);
    MulPlusRight(L, HPHt, 1.0, Diag(R));
    MulPlusLeft(Mul(K, S), -1.0, Mul(L, HPHt), Tr(L));
    MulPlusLeft(Mul(L, HPHt), 1.0, Mul(L, Diag(R)), Tr(L));
    MulAssoc(L, S, Tr(K));
    // the gap, multiplied out
    MulPlusLeft(L, -1.0, K, S);
    TrPlus(L, -1.0, K);
    MulPlusRight(Mul(D, S), Tr(L), -1.0, Tr(K));
    MulPlusLeft(Mul(L, S), -1.0, Mul(K, S), Tr(L));
    MulPlusLeft(Mul(L, S), -1.0, Mul(K, S), Tr(K));
    GapEntries(P, H, R, K, L);
  }

  /** The additive bookkeeping of GainGap, entry by entry. */
  lemma GapEntries(P: Mat, H: Mat, R: seq<real>, K: Mat, L: Mat)
    requires Dims(P, H, R) && K.rows == L.rows == P.rows && K.cols == L.cols == H.rows
    requires var S, D, HPHt := Innovation(P, H, R), Plus(L, -1.0, K), Mul(H, Mul(P, Tr(H)));
             var LR, LSL := Mul(Mul(L, Diag(R)), Tr(L)), Mul(Mul(L, S), Tr(L));
             && Mul(Mul(Reduction(H, L), P), Tr(Reduction(H, L)))
                == Plus(Plus(P, -1.0, Mul(L, Mul(H, P))), -1.0,
                        Plus(Mul(Mul(K, S), Tr(L)), -1.0, Mul(Mul(L, HPHt), Tr(L))))
             && LSL == Plus(Mul(Mul(L, HPHt), Tr(L)), 1.0, LR)
             && Mul(L, Mul(H, P)) == Mul(Mul(L, S), Tr(K))
             && Plus(P, -1.0, Joseph(P, H, R, K)) == Mul(Mul(K, S), Tr(K))
             && Mul(Mul(D, S), Tr(D))
                == Plus(Plus(LSL, -1.0, Mul(Mul(K, S), Tr(L))), -1.0,
                        Plus(Mul(Mul(L, S), Tr(K)), -1.0, Mul(Mul(K, S), Tr(K))))
    ensures var D := Plus(L, -1.0, K);
            Joseph(P, H, R, L) == Plus(Joseph(P, H, R, K), 1.0, Mul(Mul(D, Innovation(P, H, R)), Tr(D)))
  {
    var S, D := Innovation(P, H, R), Plus(L, -1.0, K);
    var LHL := Mul(Mul(L, Mul(H, Mul(P, Tr(H)))), Tr(L));
    GapSums(Joseph(P, H, R, L), Joseph(P, H, R, K), P, Mul(Mul(L, S), Tr(K)), Mul(Mul(K, S), Tr(L)), LHL,
            Mul(Mul(L, Diag(R)), Tr(L)), Mul(Mul(L, S), Tr(L)), Mul(Mul(K, S), Tr(K)), Mul(Mul(D, S), Tr(D)));
  }

  lemma GapSums(J: Mat, J': Mat, P: Mat, LK: Mat, KL: Mat, LHL: Mat, LR: Mat, LL: Mat, KK: Mat, G: Mat)
    requires forall M :: M in [J', P, LK, KL, LHL, LR, LL, KK, G] ==> M.rows == J.rows && M.cols == J.cols
    requires J == Plus(Plus(Plus(P, -1.0, LK), -1.0, Plus(KL, -1.0, LHL)), 1.0, LR)
    requires LL == Plus(LHL, 1.0, LR)
    requires Plus(P, -1.0, J') == KK
    requires G == Plus(Plus(LL, -1.0, KL), -1.0, Plus(LK, -1.0, KK))
    ensures J == Plus(J', 1.0, G)
  {
    forall i, j | 0 <= i < J.rows && 0 <= j < J.cols ensures J.at[i][j] == J'.at[i][j] + 1.0 * G.at[i][j] {
      assert KK.at[i][j] == P.at[i][j] - J'.at[i][j];
    }
    Ext(J, Plus(J', 1.0, G));
  }

  /** The gain the filter computes is the least-covariance gain. */
  lemma GainIsOptimal(P: Mat, H: Mat, R: seq<real>, Sinv: Mat, L: Mat, x: seq<real>)
    requires Dims(P, H, R) && Symmetric(P) && Psd(P) && Sinv.rows == Sinv.cols == H.rows
    requires forall k :: 0 <= k < |R| ==> R[k] >= 0.0
    requires Mul(Sinv, Innovation(P, H, R)) == Id(H.rows)
    requires L.rows == P.rows && L.cols == H.rows && |x| == P.rows
    ensures Quad(x, Joseph(P, H, R, Gain(P, H, Sinv))) <= Quad(x, Joseph(P, H, R, L))
  {
    var K, S := Gain(P, H, Sinv), Innovation(P, H, R);
    var D := Plus(L, -1.0, K);
    GainGap(P, H, R, Sinv, L);
    QuadPlus(x, Joseph(P, H, R, K), 1.0, Mul(Mul(D, S), Tr(D)));
    InnovationPsd(P, H, R);
    PsdCongruence(D, S);
  }

  // ---- what each stage keeps ----

  lemma JosephKeeps(P: Mat, H: Mat, R: seq<real>, K: Mat)
    requires Dims(P, H, R) && Symmetric(P) && K.rows == P.rows && K.cols == H.rows
    ensures Symmetric(Joseph(P, H, R, K))
    ensures Psd(P) && (forall k :: 0 <= k < |R| ==> R[k] >= 0.0) ==> Psd(Joseph(P, H, R, K))
  {
    var A := Reduction(H, K);
    TrDiag(R);
    SymmetricCongruence(A, P);
    SymmetricCongruence(K, Diag(R));
    SymmetricPlus(Mul(Mul(A, P), Tr(A)), 1.0, Mul(Mul(K, Diag(R)), Tr(K)));
    if Psd(P) && forall k :: 0 <= k < |R| ==> R[k] >= 0.0 {
      PsdDiag(R);
      PsdCongruence(A, P);
      PsdCongruence(K, Diag(R));
      PsdPlus(Mul(Mul(A, P), Tr(A)), Mul(Mul(K, Diag(R)), Tr(K)));
    }
  }

  lemma PredictedKeeps(F: Mat, P: Mat, Q: Mat)
    requires F.rows == F.cols == P.rows == P.cols == Q.rows == Q.cols
    requires Symmetric(P) && Symmetric(Q)
    ensures Symmetric(Predicted(F, P, Q))
    ensures Psd(P) && Psd(Q) ==> Psd(Predicted(F, P, Q))
  {
    SymmetricCongruence(F, P);
    SymmetricPlus(Mul(Mul(F, P), Tr(F)), 1.0, Q);
    if Psd(P) && Psd(Q) {
      PsdCongruence(F, P);
      PsdPlus(Mul(Mul(F, P), Tr(F)), Q);
    }
  }

  /** The predicted spread of a functional x is that of xF before, plus the process noise of x. */
  lemma {:induction false} PredictedSpread(F: Mat, P: Mat, Q: Mat, x: seq<real>)
    requires F.rows == F.cols == P.rows == P.cols == Q.rows == Q.cols == |x|
    ensures Quad(x, Predicted(F, P, Q)) == Quad(RowMul(x, F), P) + Quad(x, Q)
  {
    QuadCongruence(x, F, P);
    SpreadAdds(Mul(Mul(F, P), Tr(F)), Q, x);
  }

  lemma {:induction false} SpreadAdds(A: Mat, B: Mat, x: seq<real>)
    requires |x| == A.rows == A.cols == B.rows == B.cols
    ensures Quad(x, Plus(A, 1.0, B)) == Quad(x, A) + Quad(x, B)
  {
    QuadPlus(x, A, 1.0, B);
  }

  lemma {:induction false} QuadTransposed(x: seq<real>, P: Mat)
    requires |x| == P.rows == P.cols
    ensures Quad(x, Tr(P)) == Quad(x, P)
  {
    var X := Row(x);
    TrMul(Mul(X, P), Tr(X));
    TrMul(X, P);
    TrTr(X);
    MulAssoc(X, Tr(P), Tr(X));
    assert Tr(Mul(Mul(X, P), Tr(X))).at[0][0] == Mul(Mul(X, P), Tr(X)).at[0][0];
  }

  lemma {:induction false} AveragedTwice(P: Mat, A: Mat)
    requires P.rows == P.cols && A == Averaged(P)
    ensures Plus(A, 1.0, A) == Plus(P, 1.0, Tr(P))
  {
    Ext(Plus(A, 1.0, A), Plus(P, 1.0, Tr(P)));
  }

  /** Averaging leaves the spread of every functional as it is. */
  lemma {:induction false} AveragedSpread(P: Mat, x: seq<real>)
    requires |x| == P.rows == P.cols
    ensures Quad(x, Averaged(P)) == Quad(x, P)
  {
    var A := Averaged(P);
    AveragedTwice(P, A);
    QuadPlus(x, A, 1.0, A);
    QuadPlus(x, P, 1.0, Tr(P));
    QuadTransposed(x, P);
  }

  /** Averaging makes any square matrix symmetric and leaves a symmetric one as it is. */
  lemma AveragedSymmetric(P: Mat)
    requires P.rows == P.cols
    ensures Symmetric(Averaged(P))
    ensures Symmetric(P) <==> Averaged(P) == P
  {
    SymmetricEntries(Averaged(P));
    SymmetricEntries(P);
    if Symmetric(P) { Ext(Averaged(P), P); }
  }
}
