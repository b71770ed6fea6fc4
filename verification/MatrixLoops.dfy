/** The in-place matrix loops, each proved to leave the true product, sum or transpose. */
module MatrixLoops {
  import opened Matrices

  /** The matrix an array holds. */
  ghost function Of(a: array2<real>): (m: Mat)
    reads a
    ensures m.rows == a.Length0 && m.cols == a.Length1
    ensures forall i, j :: 0 <= i < a.Length0 && 0 <= j < a.Length1 ==> m.at[i][j] == a[i, j]
  {
    Matrix(a.Length0, a.Length1,
           seq(a.Length0, i requires 0 <= i < a.Length0 reads a =>
             seq(a.Length1, j requires 0 <= j < a.Length1 reads a => a[i, j])))
  }

  method Clear(C: array2<real>)
    modifies C
    ensures forall i, j :: 0 <= i < C.Length0 && 0 <= j < C.Length1 ==> C[i, j] == 0.0
  {
    for i := 0 to C.Length0
      invariant forall i', j :: 0 <= i' < i && 0 <= j < C.Length1 ==> C[i', j] == 0.0
    {
      for j := 0 to C.Length1
        invariant forall i', j' :: 0 <= i' < C.Length0 && 0 <= j' < C.Length1 && (i' < i || (i' == i && j' < j)) ==> C[i', j'] == 0.0
      {
        C[i, j] := 0.0;
      }
    }
  }

  /** C += a row multiple, the innermost loop of the product. */
  method AddRowMultiple(C: array2<real>, i: nat, f: real, B: array2<real>, k: nat)
    requires C != B && i < C.Length0 && k < B.Length0 && B.Length1 == C.Length1
    modifies C
    ensures forall j :: 0 <= j < C.Length1 ==> C[i, j] == old(C[i, j]) + f * B[k, j]
    ensures forall i', j :: 0 <= i' < C.Length0 && i' != i && 0 <= j < C.Length1 ==> C[i', j] == old(C[i', j])
  {
    for j := 0 to C.Length1
      invariant forall j' :: 0 <= j' < j ==> C[i, j'] == old(C[i, j']) + f * B[k, j']
      invariant forall j' :: j <= j' < C.Length1 ==> C[i, j'] == old(C[i, j'])
      invariant forall i', j' :: 0 <= i' < C.Length0 && i' != i && 0 <= j' < C.Length1 ==> C[i', j'] == old(C[i', j'])
    {
      C[i, j] := C[i, j] + f * B[k, j];
    }
  }

  /** Row i of the product, skipping the zero factors. */
  method MulRow(A: array2<real>, B: array2<real>, C: array2<real>, i: nat)
    requires C != A && C != B && i < A.Length0
    requires A.Length1 == B.Length0 && C.Length0 == A.Length0 && C.Length1 == B.Length1
    requires forall j :: 0 <= j < C.Length1 ==> C[i, j] == 0.0
    modifies C
    ensures forall j :: 0 <= j < C.Length1 ==> C[i, j] == ColDot(Of(A).at[i], Of(B), j, B.Length0)
    ensures forall i', j :: 0 <= i' < C.Length0 && i' != i && 0 <= j < C.Length1 ==> C[i', j] == old(C[i', j])
  {
    ghost var u, MB := Of(A).at[i], Of(B);
    for k := 0 to A.Length1
      invariant forall j :: 0 <= j < C.Length1 ==> C[i, j] == ColDot(u, MB, j, k)
      invariant forall i', j :: 0 <= i' < C.Length0 && i' != i && 0 <= j < C.Length1 ==> C[i', j] == old(C[i', j])
    {
      if A[i, k] != 0.0 {
        AddRowMultiple(C, i, A[i, k], B, k);
      }
    }
  }

  method MatMul(A: array2<real>, B: array2<real>, C: array2<real>)
    requires C != A && C != B
    requires A.Length1 == B.Length0 && C.Length0 == A.Length0 && C.Length1 == B.Length1
    modifies C
    ensures Of(C) == Mul(Of(A), Of(B))
  {
    ghost var MA, MB := Of(A), Of(B);
    Clear(C);
    for i := 0 to A.Length0
      invariant Of(A) == MA && Of(B) == MB
      invariant forall i', j :: 0 <= i' < i && 0 <= j < C.Length1 ==> C[i', j] == ColDot(MA.at[i'], MB, j, MB.rows)
      invariant forall i', j :: i <= i' < C.Length0 && 0 <= j < C.Length1 ==> C[i', j] == 0.0
    {
      MulRow(A, B, C, i);
    }
    Ext(Of(C), Mul(MA, MB));
  }

  /** C may be A or B: each entry is read before it is written. */
  method MatAdd(A: array2<real>, B: array2<real>, C: array2<real>)
    requires A.Length0 == B.Length0 == C.Length0 && A.Length1 == B.Length1 == C.Length1
    modifies C
    ensures Of(C) == Plus(old(Of(A)), 1.0, old(Of(B)))
  {
    for i := 0 to C.Length0
      invariant forall i', j :: 0 <= i' < i && 0 <= j < C.Length1 ==> C[i', j] == old(A[i', j]) + old(B[i', j])
      invariant forall i', j :: i <= i' < C.Length0 && 0 <= j < C.Length1 ==>
                  A[i', j] == old(A[i', j]) && B[i', j] == old(B[i', j])
    {
      for j := 0 to C.Length1
        invariant forall i', j' :: 0 <= i' < C.Length0 && 0 <= j' < C.Length1 && (i' < i || (i' == i && j' < j)) ==>
                    C[i', j'] == old(A[i', j']) + old(B[i', j'])
        invariant forall i', j' :: 0 <= i' < C.Length0 && 0 <= j' < C.Length1 && (i' > i || (i' == i && j' >= j)) ==>
                    A[i', j'] == old(A[i', j']) && B[i', j'] == old(B[i', j'])
      {
        C[i, j] := A[i, j] + B[i, j];
      }
    }
    Ext(Of(C), Plus(old(Of(A)), 1.0, old(Of(B))));
  }

  method MatTrans(A: array2<real>, AT: array2<real>)
    requires A != AT && AT.Length0 == A.Length1 && AT.Length1 == A.Length0
    modifies AT
    ensures Of(AT) == Tr(Of(A))
  {
    for i := 0 to A.Length0
      invariant forall i', j :: 0 <= i' < i && 0 <= j < A.Length1 ==> AT[j, i'] == A[i', j]
    {
      for j := 0 to A.Length1
        invariant forall i', j' :: 0 <= i' < A.Length0 && 0 <= j' < A.Length1 && (i' < i || (i' == i && j' < j)) ==>
                    AT[j', i'] == A[i', j']
      {
        AT[j, i] := A[i, j];
      }
    }
    Ext(Of(AT), Tr(Of(A)));
  }

  /** The innermost loop of an ordinary product: C[i, j] += the row i of A times column j of B. */
  lemma ColDotStep(u: seq<real>, B: Mat, j: nat, k: nat, a: real, b: real)
    requires k < |u| && k < B.rows && j < B.cols && u[k] == a && B.at[k][j] == b
    ensures ColDot(u, B, j, k + 1) == ColDot(u, B, j, k) + a * b
  {
  }

  method AccumulateEntry(A: array2<real>, B: array2<real>, C: array2<real>, i: nat, j: nat)
    requires C != A && C != B && i < C.Length0 && j < C.Length1
    requires A.Length1 == B.Length0 && C.Length0 == A.Length0 && C.Length1 == B.Length1
    modifies C
    ensures C[i, j] == old(C[i, j]) + ColDot(Of(A).at[i], Of(B), j, B.Length0)
    ensures forall i', j' :: 0 <= i' < C.Length0 && 0 <= j' < C.Length1 && !(i' == i && j' == j) ==> C[i', j'] == old(C[i', j'])
  {
    ghost var u, MB := Of(A).at[i], Of(B);
    for k := 0 to B.Length0
      invariant forall i', j' :: 0 <= i' < C.Length0 && 0 <= j' < C.Length1 && !(i' == i && j' == j) ==> C[i', j'] == old(C[i', j'])
      invariant C[i, j] == old(C[i, j]) + ColDot(u, MB, j, k)
    {
      ColDotStep(u, MB, j, k, A[i, k], B[k, j]);
      C[i, j] := C[i, j] + A[i, k] * B[k, j];
    }
  }

  /** C = AB by accumulation, without the zero skip. */
  method MatMulDense(A: array2<real>, B: array2<real>, C: array2<real>)
    requires C != A && C != B
    requires A.Length1 == B.Length0 && C.Length0 == A.Length0 && C.Length1 == B.Length1
    modifies C
    ensures Of(C) == Mul(Of(A), Of(B))
  {
    ghost var M, MA, MB := Mul(Of(A), Of(B)), Of(A), Of(B);
    Clear(C);
    for i := 0 to C.Length0
      invariant Of(A) == MA && Of(B) == MB
      invariant forall i', j :: 0 <= i' < C.Length0 && 0 <= j < C.Length1 ==> C[i', j] == if i' < i then M.at[i'][j] else 0.0
    {
      for j := 0 to C.Length1
        invariant Of(A) == MA && Of(B) == MB
        invariant forall i', j' :: 0 <= i' < C.Length0 && 0 <= j' < C.Length1 ==>
                    C[i', j'] == if i' < i || (i' == i && j' < j) then M.at[i'][j'] else 0.0
      {
        AccumulateEntry(A, B, C, i, j);
      }
    }
    Ext(Of(C), M);
  }

  method AccumulateEntryTransposed(A: array2<real>, B: array2<real>, C: array2<real>, i: nat, j: nat)
    requires C != A && C != B && i < C.Length0 && j < C.Length1
    requires A.Length1 == B.Length1 && C.Length0 == A.Length0 && C.Length1 == B.Length0
    modifies C
    ensures C[i, j] == old(C[i, j]) + ColDot(Of(A).at[i], Tr(Of(B)), j, B.Length1)
    ensures forall i', j' :: 0 <= i' < C.Length0 && 0 <= j' < C.Length1 && !(i' == i && j' == j) ==> C[i', j'] == old(C[i', j'])
  {
    ghost var u, BT := Of(A).at[i], Tr(Of(B));
    for k := 0 to B.Length1
      invariant forall i', j' :: 0 <= i' < C.Length0 && 0 <= j' < C.Length1 && !(i' == i && j' == j) ==> C[i', j'] == old(C[i', j'])
      invariant C[i, j] == old(C[i, j]) + ColDot(u, BT, j, k)
    {
      ColDotStep(u, BT, j, k, A[i, k], B[j, k]);
      C[i, j] := C[i, j] + A[i, k] * B[j, k];
    }
  }

  /** C = ABᵀ by accumulation over rows of both. */
  method MatMulTransposed(A: array2<real>, B: array2<real>, C: array2<real>)
    requires C != A && C != B
    requires A.Length1 == B.Length1 && C.Length0 == A.Length0 && C.Length1 == B.Length0
    modifies C
    ensures Of(C) == Mul(Of(A), Tr(Of(B)))
  {
    ghost var M, MA, MB := Mul(Of(A), Tr(Of(B))), Of(A), Of(B);
    Clear(C);
    for i := 0 to C.Length0
      invariant Of(A) == MA && Of(B) == MB
      invariant forall i', j :: 0 <= i' < C.Length0 && 0 <= j < C.Length1 ==> C[i', j] == if i' < i then M.at[i'][j] else 0.0
    {
      for j := 0 to C.Length1
        invariant Of(A) == MA && Of(B) == MB
        invariant forall i', j' :: 0 <= i' < C.Length0 && 0 <= j' < C.Length1 ==>
                    C[i', j'] == if i' < i || (i' == i && j' < j) then M.at[i'][j'] else 0.0
      {
        AccumulateEntryTransposed(A, B, C, i, j);
      }
    }
    Ext(Of(C), M);
  }

  method AddDiagonal(S: array2<real>, d: seq<real>)
    requires S.Length0 == S.Length1 == |d|
    modifies S
    ensures Of(S) == Plus(old(Of(S)), 1.0, Diag(d))
  {
    for i := 0 to |d|
      invariant forall i', j :: 0 <= i' < |d| && 0 <= j < |d| ==>
                  S[i', j] == if i' == j < i then old(S[i', j]) + d[i'] else old(S[i', j])
    {
      S[i, i] := S[i, i] + d[i];
    }
    Ext(Of(S), Plus(old(Of(S)), 1.0, Diag(d)));
  }

  method SubtractEntry(A: array2<real>, B: array2<real>, C: array2<real>, i: nat, j: nat)
    requires C != A && C != B && i < C.Length0 && j < C.Length1
    requires A.Length1 == B.Length0 && C.Length0 == A.Length0 && C.Length1 == B.Length1
    modifies C
    ensures C[i, j] == old(C[i, j]) - ColDot(Of(A).at[i], Of(B), j, B.Length0)
    ensures forall i', j' :: 0 <= i' < C.Length0 && 0 <= j' < C.Length1 && !(i' == i && j' == j) ==> C[i', j'] == old(C[i', j'])
  {
    ghost var u, MB := Of(A).at[i], Of(B);
    for k := 0 to B.Length0
      invariant forall i', j' :: 0 <= i' < C.Length0 && 0 <= j' < C.Length1 && !(i' == i && j' == j) ==> C[i', j'] == old(C[i', j'])
      invariant C[i, j] == old(C[i, j]) - ColDot(u, MB, j, k)
    {
      ColDotStep(u, MB, j, k, A[i, k], B[k, j]);
      C[i, j] := C[i, j] - A[i, k] * B[k, j];
    }
  }

  /** C = I − AB, each entry started from the identity. */
  method IdentityMinusProduct(A: array2<real>, B: array2<real>, C: array2<real>)
    requires C != A && C != B
    requires A.Length1 == B.Length0 && C.Length0 == A.Length0 == C.Length1 == B.Length1
    modifies C
    ensures Of(C) == Plus(Id(C.Length0), -1.0, Mul(Of(A), Of(B)))
  {
    ghost var M, MA, MB := Plus(Id(C.Length0), -1.0, Mul(Of(A), Of(B))), Of(A), Of(B);
    for i := 0 to C.Length0
      invariant Of(A) == MA && Of(B) == MB
      invariant forall i', j :: 0 <= i' < i && 0 <= j < C.Length1 ==> C[i', j] == M.at[i'][j]
    {
      for j := 0 to C.Length1
        invariant Of(A) == MA && Of(B) == MB
        invariant forall i', j' :: 0 <= i' < C.Length0 && 0 <= j' < C.Length1 && (i' < i || (i' == i && j' < j)) ==>
                    C[i', j'] == M.at[i'][j']
      {
        C[i, j] := if i == j then 1.0 else 0.0;
        SubtractEntry(A, B, C, i, j);
        assert Mul(MA, MB).at[i][j] == ColDot(MA.at[i], MB, j, MB.rows);
      }
    }
    Ext(Of(C), M);
  }

  /** The first k terms of entry (i, j) of K diag(r) Kᵀ. */
  function OuterPartial(K: Mat, r: seq<real>, i: nat, j: nat, k: nat): real
    requires |r| == K.cols && i < K.rows && j < K.rows && k <= K.cols
  {
    ColDot(Mul(K, Diag(r)).at[i], Tr(K), j, k)
  }

  lemma OuterStep(K: Mat, r: seq<real>, i: nat, j: nat, k: nat)
    requires |r| == K.cols && i < K.rows && j < K.rows && k < K.cols
    ensures OuterPartial(K, r, i, j, k + 1) == OuterPartial(K, r, i, j, k) + K.at[i][k] * r[k] * K.at[j][k]
  {
    MulDiag(K, r);
    assert Mul(K, Diag(r)).at[i][k] == K.at[i][k] * r[k];
  }

  method AddOuterColumn(P: array2<real>, K: array2<real>, k: nat, r: seq<real>)
    requires P != K && P.Length0 == P.Length1 == K.Length0 && k < K.Length1 == |r|
    modifies P
    ensures forall i, j :: 0 <= i < P.Length0 && 0 <= j < P.Length1 ==>
              P[i, j] == old(P[i, j]) + (OuterPartial(Of(K), r, i, j, k + 1) - OuterPartial(Of(K), r, i, j, k))
  {
    ghost var M := Of(K);
    for i := 0 to P.Length0
      invariant Of(K) == M
      invariant forall i', j :: 0 <= i' < P.Length0 && 0 <= j < P.Length1 ==>
                  P[i', j] == if i' < i
                              then old(P[i', j]) + (OuterPartial(M, r, i', j, k + 1) - OuterPartial(M, r, i', j, k))
                              else old(P[i', j])
    {
      for j := 0 to P.Length1
        invariant Of(K) == M
        invariant forall i', j' :: 0 <= i' < P.Length0 && 0 <= j' < P.Length1 ==>
                    P[i', j'] == if i' < i || (i' == i && j' < j)
                                 then old(P[i', j']) + (OuterPartial(M, r, i', j', k + 1) - OuterPartial(M, r, i', j', k))
                                 else old(P[i', j'])
      {
        OuterStep(M, r, i, j, k);
        P[i, j] := P[i, j] + K[i, k] * r[k] * K[j, k];
      }
    }
  }

  /** P += K diag(r) Kᵀ, one column of K at a time. */
  method AddWeightedOuter(P: array2<real>, K: array2<real>, r: seq<real>)
    requires P != K && P.Length0 == P.Length1 == K.Length0 && K.Length1 == |r|
    modifies P
    ensures Of(P) == Plus(old(Of(P)), 1.0, Mul(Mul(Of(K), Diag(r)), Tr(Of(K))))
  {
    ghost var M := Of(K);
    for k := 0 to |r|
      invariant Of(K) == M
      invariant forall i, j :: 0 <= i < P.Length0 && 0 <= j < P.Length1 ==>
                  P[i, j] == old(P[i, j]) + OuterPartial(M, r, i, j, k)
    {
      AddOuterColumn(P, K, k, r);
    }
    Ext(Of(P), Plus(old(Of(P)), 1.0, Mul(Mul(M, Diag(r)), Tr(M))));
  }
}
