/** In-place Gauss-Jordan inversion with partial pivoting, as the measurement update runs it. */
module GaussJordan {
  import opened Basics
  import opened Matrices
  import opened MatrixLoops
  import opened RowReduction

  method SwapRows(A: array2<real>, p: nat, q: nat)
    requires p < A.Length0 && q < A.Length0
    modifies A
    ensures Of(A) == Swapped(old(Of(A)), p, q)
  {
    for j := 0 to A.Length1
      invariant forall i, j' :: 0 <= i < A.Length0 && 0 <= j' < j ==>
                  A[i, j'] == old(A[if i == p then q else if i == q then p else i, j'])
      invariant forall i, j' :: 0 <= i < A.Length0 && j <= j' < A.Length1 ==> A[i, j'] == old(A[i, j'])
    {
      var t := A[p, j];
      A[p, j] := A[q, j];
      A[q, j] := t;
    }
    Ext(Of(A), Swapped(old(Of(A)), p, q));
  }

  method ScaleRow(A: array2<real>, r: nat, s: real)
    requires r < A.Length0
    modifies A
    ensures Of(A) == ScaledRow(old(Of(A)), r, s)
  {
    for j := 0 to A.Length1
      invariant forall i, j' :: 0 <= i < A.Length0 && 0 <= j' < A.Length1 ==>
                  A[i, j'] == if i == r && j' < j then old(A[i, j']) * s else old(A[i, j'])
    {
      A[r, j] := A[r, j] * s;
    }
    Ext(Of(A), ScaledRow(old(Of(A)), r, s));
  }

  method SubtractRow(A: array2<real>, r: nat, c: nat, f: real)
    requires r < A.Length0 && c < A.Length0 && r != c
    modifies A
    ensures Of(A) == ReducedRow(old(Of(A)), r, c, f)
  {
    for j := 0 to A.Length1
      invariant forall i, j' :: 0 <= i < A.Length0 && 0 <= j' < A.Length1 ==>
                  A[i, j'] == if i == r && j' < j then old(A[i, j']) - f * old(A[c, j']) else old(A[i, j'])
    {
      A[r, j] := A[r, j] - f * A[c, j];
    }
    Ext(Of(A), ReducedRow(old(Of(A)), r, c, f));
  }

  method FindPivot(W: array2<real>, col: nat) returns (piv: nat)
    requires col < W.Length0 == W.Length1
    ensures col <= piv < W.Length0
    ensures forall i :: col <= i < W.Length0 ==> Abs(W[i, col]) <= Abs(W[piv, col])
  {
    piv := col;
    for row := col + 1 to W.Length0
      invariant col <= piv < row
      invariant forall i :: col <= i < row ==> Abs(W[i, col]) <= Abs(W[piv, col])
    {
      if Abs(W[row, col]) > Abs(W[piv, col]) { piv := row; }
    }
  }

  /** Row operations on both matrices keep the elimination state, with the left inverse they need. */
  lemma SwapStep(S: Mat, W: Mat, E: Mat, G: Mat, col: nat, piv: nat) returns (G': Mat)
    requires Eliminated(S, W, E, G, col) && col <= piv < S.rows
    ensures Eliminated(S, Swapped(W, col, piv), Swapped(E, col, piv), G', col)
  {
    G' := SwappedCols(G, col, piv);
    SwapInverse(G, E, col, piv);
  }

  lemma ScaleStep(S: Mat, W: Mat, E: Mat, G: Mat, col: nat, s: real) returns (G': Mat)
    requires Eliminated(S, W, E, G, col) && col < S.rows && s != 0.0
    ensures Eliminated(S, ScaledRow(W, col, s), ScaledRow(E, col, s), G', col)
  {
    G' := DividedCol(G, col, s);
    ScaleInverse(G, E, col, s);
    MulScaledRow(E, S, col, s);
  }

  lemma ReduceStep(S: Mat, W: Mat, E: Mat, G: Mat, col: nat, row: nat, f: real) returns (G': Mat)
    requires Eliminated(S, W, E, G, col) && col < S.rows && row < S.rows && row != col
    ensures Eliminated(S, ReducedRow(W, row, col, f), ReducedRow(E, row, col, f), G', col)
  {
    G' := AddedCol(G, col, row, f);
    ReduceInverse(G, E, row, col, f);
    MulReducedRow(E, S, row, col, f);
    forall i, j | 0 <= i < W.rows && 0 <= j < col
      ensures ReducedRow(W, row, col, f).at[i][j] == if i == j then 1.0 else 0.0
    {
      assert W.at[col][j] == 0.0;
      assert f * W.at[col][j] == 0.0;
    }
  }

  function SwappedSeq(pi: seq<nat>, p: nat, q: nat): (r: seq<nat>)
    requires p < |pi| && q < |pi|
  {
    pi[p := pi[q]][q := pi[p]]
  }

  lemma SwapUnscaled(E: Mat, pi: seq<nat>, col: nat, piv: nat)
    requires Unscaled(E, pi, col) && col <= piv < E.rows
    ensures Unscaled(Swapped(E, col, piv), SwappedSeq(pi, col, piv), col)
  {
  }

  /** One row of the elimination loop. */
  method ClearEntry(W: array2<real>, E: array2<real>, col: nat, row: nat, ghost S: Mat, ghost G: Mat, ghost pi: seq<nat>) returns (ghost G': Mat)
    requires W != E && col < S.rows == W.Length0 == W.Length1 == E.Length0 == E.Length1 && row < S.rows && row != col
    requires Eliminated(S, Of(W), Of(E), G, col) && Of(W).at[col][col] == 1.0
    requires Unscaled(Of(E), pi, col + 1)
    modifies W, E
    ensures Eliminated(S, Of(W), Of(E), G', col)
    ensures Unscaled(Of(E), pi, col + 1)
    ensures Of(W).at[row][col] == 0.0
    ensures forall i :: 0 <= i < S.rows && i != row ==> Of(W).at[i] == old(Of(W)).at[i]
  {
    var fac := W[row, col];
    G' := ReduceStep(S, Of(W), Of(E), G, col, row, fac);
    SubtractRow(W, row, col, fac);
    SubtractRow(E, row, col, fac);
  }

  /** Clears column col of W outside its pivot row, the same operations applied to E. */
  method ClearColumn(W: array2<real>, E: array2<real>, col: nat, ghost S: Mat, ghost G: Mat, ghost pi: seq<nat>) returns (ghost G': Mat)
    requires W != E && col < S.rows == W.Length0 == W.Length1 == E.Length0 == E.Length1
    requires Eliminated(S, Of(W), Of(E), G, col) && Of(W).at[col][col] == 1.0
    requires Unscaled(Of(E), pi, col + 1)
    modifies W, E
    ensures Eliminated(S, Of(W), Of(E), G', col + 1)
    ensures Unscaled(Of(E), pi, col + 1)
  {
    G' := G;
    for row := 0 to W.Length0
      invariant Eliminated(S, Of(W), Of(E), G', col) && Of(W).at[col][col] == 1.0
      invariant Unscaled(Of(E), pi, col + 1)
      invariant forall i :: 0 <= i < row && i != col ==> Of(W).at[i][col] == 0.0
    {
      if row != col {
        G' := ClearEntry(W, E, col, row, S, G', pi);
      }
    }
    assert UnitColumns(Of(W), col + 1);
  }

  /** Sw is a copy of S and Sinv the identity. */
  method Start(S: array2<real>) returns (Sw: array2<real>, Sinv: array2<real>)
    requires S.Length0 == S.Length1
    ensures fresh(Sw) && fresh(Sinv) && Sw != Sinv
    ensures Of(Sw) == Of(S) && Of(Sinv) == Id(S.Length0)
  {
    var m := S.Length0;
    Sinv := new real[m, m];
    Sw := new real[m, m];
    Clear(Sinv);
    for i := 0 to m
      invariant forall i', j :: 0 <= i' < i && 0 <= j < m ==> Sw[i', j] == S[i', j]
      invariant forall i', j :: 0 <= i' < m && 0 <= j < m ==> Sinv[i', j] == if i' == j < i then 1.0 else 0.0
    {
      for j := 0 to m
        invariant forall i', j' :: 0 <= i' < m && 0 <= j' < m && (i' < i || (i' == i && j' < j)) ==> Sw[i', j'] == S[i', j']
        invariant forall i', j' :: 0 <= i' < m && 0 <= j' < m ==> Sinv[i', j'] == if i' == j' < i then 1.0 else 0.0
      {
        Sw[i, j] := S[i, j];
      }
      Sinv[i, i] := 1.0;
    }
    Ext(Of(Sw), Of(S));
    Ext(Of(Sinv), Id(m));
  }

  /** Brings a largest entry of the column, from row col down, into the pivot row. */
  method Pivot(W: array2<real>, E: array2<real>, col: nat, ghost S: Mat, ghost G: Mat, ghost pi: seq<nat>)
    returns (ghost G': Mat, ghost pi': seq<nat>)
    requires W != E && col < S.rows == W.Length0 == W.Length1 == E.Length0 == E.Length1
    requires Eliminated(S, Of(W), Of(E), G, col) && Unscaled(Of(E), pi, col)
    modifies W, E
    ensures Eliminated(S, Of(W), Of(E), G', col) && Unscaled(Of(E), pi', col)
    ensures forall i :: col <= i < S.rows ==> Abs(Of(W).at[i][col]) <= Abs(Of(W).at[col][col])
  {
    var piv := FindPivot(W, col);
    G' := SwapStep(S, Of(W), Of(E), G, col, piv);
    SwapUnscaled(Of(E), pi, col, piv);
    pi' := SwappedSeq(pi, col, piv);
    assert forall i :: col <= i < W.Length0 ==> Abs(Of(W).at[i][col]) <= Abs(Of(W).at[piv][col]);
    SwapRows(W, col, piv);
    SwapRows(E, col, piv);
  }

  lemma Reciprocal(d: real)
    requires d != 0.0
    ensures d * (1.0 / d) == 1.0 && 1.0 / d != 0.0
  {
  }

  /** Divides the pivot row by its pivot. */
  method ScalePivot(W: array2<real>, E: array2<real>, col: nat, diag: real, ghost S: Mat, ghost G: Mat, ghost pi: seq<nat>)
    returns (ghost G': Mat)
    requires W != E && col < S.rows == W.Length0 == W.Length1 == E.Length0 == E.Length1
    requires Eliminated(S, Of(W), Of(E), G, col) && Unscaled(Of(E), pi, col)
    requires diag == Of(W).at[col][col] && diag != 0.0
    modifies W, E
    ensures Eliminated(S, Of(W), Of(E), G', col) && Of(W).at[col][col] == 1.0
    ensures Unscaled(Of(E), pi, col + 1)
  {
    var inv := 1.0 / diag;
    Reciprocal(diag);
    G' := ScaleStep(S, Of(W), Of(E), G, col, inv);
    ScaleRow(W, col, inv);
    ScaleRow(E, col, inv);
  }

  /** One pass of the column loop: pivot, test, scale, clear. */
  method EliminateColumn(W: array2<real>, E: array2<real>, col: nat, ghost S: Mat, ghost G: Mat, ghost pi: seq<nat>)
    returns (ok: bool, ghost G': Mat, ghost pi': seq<nat>)
    requires W != E && col < S.rows == W.Length0 == W.Length1 == E.Length0 == E.Length1
    requires Eliminated(S, Of(W), Of(E), G, col) && Unscaled(Of(E), pi, col)
    modifies W, E
    ensures ok ==> Eliminated(S, Of(W), Of(E), G', col + 1) && Unscaled(Of(E), pi', col + 1)
    ensures !ok ==> NoPivot(S)
  {
    G', pi' := Pivot(W, E, col, S, G, pi);
    var diag := W[col, col];
    assert diag == Of(W).at[col][col];
    if Abs(diag) < TINY {
      return false, G', pi';
    }
    G' := ScalePivot(W, E, col, diag, S, G', pi');
    G' := ClearColumn(W, E, col, S, G', pi');
    ok := true;
  }

  method Invert(S: array2<real>) returns (ok: bool, Sinv: array2<real>)
    requires S.Length0 == S.Length1
    ensures fresh(Sinv) && Sinv.Length0 == Sinv.Length1 == S.Length0
    ensures ok ==> Mul(Of(Sinv), Of(S)) == Id(S.Length0) && Mul(Of(S), Of(Sinv)) == Id(S.Length0)
    ensures !ok ==> NoPivot(Of(S))
  {
    var m := S.Length0;
    var Sw;
    Sw, Sinv := Start(S);
    ghost var S0, G := Of(S), Id(m);
    ghost var pi: seq<nat> := seq(m, (k: nat) => k);
    MulId(S0);
    MulId(Id(m));
    for col := 0 to m
      invariant Of(S) == S0
      invariant Eliminated(S0, Of(Sw), Of(Sinv), G, col) && Unscaled(Of(Sinv), pi, col)
    {
      ok, G, pi := EliminateColumn(Sw, Sinv, col, S0, G, pi);
      if !ok { return; }
    }
    EliminationInverts(S0, Of(Sw), Of(Sinv), G);
    ok := true;
  }
}
