/** Row operations on matrices as values: how they act on products and on left inverses. */
module RowReduction {
  import opened Basics
  import opened Matrices

  function WithRow(A: Mat, r: nat, v: seq<real>): (B: Mat)
    requires r < A.rows && |v| == A.cols
    ensures B.rows == A.rows && B.cols == A.cols
    ensures forall i :: 0 <= i < A.rows ==> B.at[i] == if i == r then v else A.at[i]
  {
    Matrix(A.rows, A.cols, A.at[r := v])
  }

  function Swapped(A: Mat, p: nat, q: nat): (B: Mat)
    requires p < A.rows && q < A.rows
    ensures B.rows == A.rows && B.cols == A.cols
    ensures forall i :: 0 <= i < A.rows ==>
              B.at[i] == if i == p then A.at[q] else if i == q then A.at[p] else A.at[i]
  {
    WithRow(WithRow(A, p, A.at[q]), q, A.at[p])
  }

  function ScaledRow(A: Mat, r: nat, s: real): (B: Mat)
    requires r < A.rows
    ensures B.rows == A.rows && B.cols == A.cols
    ensures forall i, j :: 0 <= i < A.rows && 0 <= j < A.cols ==>
              B.at[i][j] == if i == r then A.at[i][j] * s else A.at[i][j]
  {
    WithRow(A, r, seq(A.cols, j requires 0 <= j < A.cols => A.at[r][j] * s))
  }

  /** Row r minus f times row c. */
  function ReducedRow(A: Mat, r: nat, c: nat, f: real): (B: Mat)
    requires r < A.rows && c < A.rows
    ensures B.rows == A.rows && B.cols == A.cols
    ensures forall i, j :: 0 <= i < A.rows && 0 <= j < A.cols ==>
              B.at[i][j] == if i == r then A.at[i][j] - f * A.at[c][j] else A.at[i][j]
  {
    WithRow(A, r, seq(A.cols, j requires 0 <= j < A.cols => A.at[r][j] - f * A.at[c][j]))
  }

  // ---- a row operation on the left factor is the same operation on the product ----

  lemma MulScaledRow(E: Mat, S: Mat, r: nat, s: real)
    requires E.cols == S.rows && r < E.rows
    ensures Mul(ScaledRow(E, r, s), S) == ScaledRow(Mul(E, S), r, s)
  {
    var L, R, zero := Mul(ScaledRow(E, r, s), S), ScaledRow(Mul(E, S), r, s), seq(E.cols, _ => 0.0);
    forall i, j | 0 <= i < E.rows && 0 <= j < S.cols ensures L.at[i][j] == R.at[i][j] {
      if i == r {
        ColDotLinear(ScaledRow(E, r, s).at[i], zero, s, E.at[i], S, j, S.rows);
        ColDotZero(zero, S, j, S.rows);
      } else {
        ColDotCong(ScaledRow(E, r, s).at[i], S, E.at[i], S, j, j, S.rows);
      }
    }
    Ext(L, R);
  }

  lemma {:induction false} RowMinusMultiple(w: seq<real>, u: seq<real>, f: real, v: seq<real>, S: Mat, j: nat, n: nat)
    requires n <= |u| && n <= |v| && n <= |w| && n <= S.rows && j < S.cols
    requires forall k :: 0 <= k < n ==> w[k] == u[k] - f * v[k]
    ensures ColDot(w, S, j, n) == ColDot(u, S, j, n) - f * ColDot(v, S, j, n)
  {
    if n > 0 {
      RowMinusMultiple(w, u, f, v, S, j, n - 1);
    }
  }

  /** u − f·v. */
  function RowMinus(u: seq<real>, f: real, v: seq<real>): (w: seq<real>)
    requires |u| == |v|
    ensures |w| == |u| && forall k :: 0 <= k < |u| ==> w[k] == u[k] - f * v[k]
  {
    seq(|u|, k requires 0 <= k < |u| => u[k] - f * v[k])
  }

  lemma RowMulMinus(u: seq<real>, f: real, v: seq<real>, S: Mat)
    requires |u| == |v| == S.rows
    ensures RowMul(RowMinus(u, f, v), S) == RowMinus(RowMul(u, S), f, RowMul(v, S))
  {
    var L, R := RowMul(RowMinus(u, f, v), S), RowMinus(RowMul(u, S), f, RowMul(v, S));
    forall j | 0 <= j < S.cols ensures L[j] == R[j] {
      RowMinusMultiple(RowMinus(u, f, v), u, f, v, S, j, S.rows);
    }
  }

  lemma ReducedIsWithRow(A: Mat, r: nat, c: nat, f: real)
    requires r < A.rows && c < A.rows
    ensures ReducedRow(A, r, c, f) == WithRow(A, r, RowMinus(A.at[r], f, A.at[c]))
  {
    Ext(ReducedRow(A, r, c, f), WithRow(A, r, RowMinus(A.at[r], f, A.at[c])));
  }

  lemma MulReducedRow(E: Mat, S: Mat, r: nat, c: nat, f: real)
    requires E.cols == S.rows && r < E.rows && c < E.rows
    ensures Mul(ReducedRow(E, r, c, f), S) == ReducedRow(Mul(E, S), r, c, f)
  {
    ReducedIsWithRow(E, r, c, f);
    ReducedIsWithRow(Mul(E, S), r, c, f);
    RowMulMinus(E.at[r], f, E.at[c], S);
  }

  // ---- a row operation on E is undone by a column operation on a left inverse of E ----

  function Total(t: seq<real>, n: nat): real
    requires n <= |t|
  {
    if n == 0 then 0.0 else Total(t, n - 1) + t[n - 1]
  }

  function Terms(u: seq<real>, B: Mat, j: nat): (t: seq<real>)
    requires |u| == B.rows && j < B.cols
    ensures |t| == |u| && forall k :: 0 <= k < |u| ==> t[k] == u[k] * B.at[k][j]
  {
    seq(|u|, k requires 0 <= k < |u| => u[k] * B.at[k][j])
  }

  lemma {:induction false} ColDotTotal(u: seq<real>, B: Mat, j: nat, n: nat)
    requires n <= |u| == B.rows && j < B.cols
    ensures ColDot(u, B, j, n) == Total(Terms(u, B, j), n)
  {
    if n > 0 { ColDotTotal(u, B, j, n - 1); }
  }

  /** Two totals whose terms differ only at a and b, by d up and d down. */
  lemma {:induction false} TotalTwo(t: seq<real>, t': seq<real>, n: nat, a: nat, b: nat, d: real)
    requires n <= |t| == |t'| && a < |t| && b < |t| && a != b
    requires forall k :: 0 <= k < |t| && k != a && k != b ==> t'[k] == t[k]
    requires t'[a] == t[a] + d && t'[b] == t[b] - d
    ensures Total(t', n) == Total(t, n) + (if n > a then d else 0.0) - (if n > b then d else 0.0)
  {
    if n > 0 { TotalTwo(t, t', n - 1, a, b, d); }
  }

  function SwappedCols(G: Mat, p: nat, q: nat): (G': Mat)
    requires p < G.cols && q < G.cols
    ensures G'.rows == G.rows && G'.cols == G.cols
    ensures forall i, k :: 0 <= i < G.rows && 0 <= k < G.cols ==>
              G'.at[i][k] == G.at[i][if k == p then q else if k == q then p else k]
  {
    Matrix(G.rows, G.cols, seq(G.rows, i requires 0 <= i < G.rows =>
      seq(G.cols, k requires 0 <= k < G.cols => G.at[i][if k == p then q else if k == q then p else k])))
  }

  function DividedCol(G: Mat, r: nat, s: real): (G': Mat)
    requires r < G.cols && s != 0.0
    ensures G'.rows == G.rows && G'.cols == G.cols
    ensures forall i, k :: 0 <= i < G.rows && 0 <= k < G.cols ==>
              G'.at[i][k] == if k == r then G.at[i][k] / s else G.at[i][k]
  {
    Matrix(G.rows, G.cols, seq(G.rows, i requires 0 <= i < G.rows =>
      seq(G.cols, k requires 0 <= k < G.cols => if k == r then G.at[i][k] / s else G.at[i][k])))
  }

  function AddedCol(G: Mat, c: nat, r: nat, f: real): (G': Mat)
    requires c < G.cols && r < G.cols
    ensures G'.rows == G.rows && G'.cols == G.cols
    ensures forall i, k :: 0 <= i < G.rows && 0 <= k < G.cols ==>
              G'.at[i][k] == if k == c then G.at[i][c] + f * G.at[i][r] else G.at[i][k]
  {
    Matrix(G.rows, G.cols, seq(G.rows, i requires 0 <= i < G.rows =>
      seq(G.cols, k requires 0 <= k < G.cols => if k == c then G.at[i][c] + f * G.at[i][r] else G.at[i][k])))
  }

  lemma SwapRowTerms(u: seq<real>, v: seq<real>, E: Mat, p: nat, q: nat, j: nat)
    requires |u| == |v| == E.rows && p < E.rows && q < E.rows && j < E.cols
    requires forall k :: 0 <= k < |u| ==> v[k] == u[if k == p then q else if k == q then p else k]
    ensures forall k :: 0 <= k < |u| ==>
              Terms(v, Swapped(E, p, q), j)[k] == Terms(u, E, j)[if k == p then q else if k == q then p else k]
  {
  }

  lemma SwapRowSum(u: seq<real>, v: seq<real>, E: Mat, p: nat, q: nat, j: nat)
    requires |u| == |v| == E.rows && p < E.rows && q < E.rows && j < E.cols
    requires forall k :: 0 <= k < |u| ==> v[k] == u[if k == p then q else if k == q then p else k]
    ensures ColDot(v, Swapped(E, p, q), j, E.rows) == ColDot(u, E, j, E.rows)
  {
    var t, t' := Terms(u, E, j), Terms(v, Swapped(E, p, q), j);
    ColDotTotal(u, E, j, E.rows);
    ColDotTotal(v, Swapped(E, p, q), j, E.rows);
    SwapRowTerms(u, v, E, p, q, j);
    if p == q { assert t == t'; } else { TotalTwo(t, t', E.rows, p, q, t[q] - t[p]); }
  }

  lemma ReduceRowTerms(u: seq<real>, v: seq<real>, E: Mat, r: nat, c: nat, f: real, j: nat, d: real)
    requires |u| == |v| == E.rows && r < E.rows && c < E.rows && r != c && j < E.cols
    requires forall k :: 0 <= k < |u| ==> v[k] == if k == c then u[c] + f * u[r] else u[k]
    requires d == f * u[r] * E.at[c][j]
    ensures var t, t' := Terms(u, E, j), Terms(v, ReducedRow(E, r, c, f), j);
            && t'[c] == t[c] + d && t'[r] == t[r] - d
            && forall k :: 0 <= k < |u| && k != c && k != r ==> t'[k] == t[k]
  {
  }

  lemma ReduceRowSum(u: seq<real>, v: seq<real>, E: Mat, r: nat, c: nat, f: real, j: nat)
    requires |u| == |v| == E.rows && r < E.rows && c < E.rows && r != c && j < E.cols
    requires forall k :: 0 <= k < |u| ==> v[k] == if k == c then u[c] + f * u[r] else u[k]
    ensures ColDot(v, ReducedRow(E, r, c, f), j, E.rows) == ColDot(u, E, j, E.rows)
  {
    var d := f * u[r] * E.at[c][j];
    ColDotTotal(u, E, j, E.rows);
    ColDotTotal(v, ReducedRow(E, r, c, f), j, E.rows);
    ReduceRowTerms(u, v, E, r, c, f, j, d);
    TotalTwo(Terms(u, E, j), Terms(v, ReducedRow(E, r, c, f), j), E.rows, c, r, d);
  }

  /** The column operation on G that keeps it a left inverse across the row operation on E. */
  lemma SwapInverse(G: Mat, E: Mat, p: nat, q: nat)
    requires G.cols == E.rows && p < E.rows && q < E.rows
    ensures Mul(SwappedCols(G, p, q), Swapped(E, p, q)) == Mul(G, E)
  {
    var L, R := Mul(SwappedCols(G, p, q), Swapped(E, p, q)), Mul(G, E);
    forall i, j | 0 <= i < G.rows && 0 <= j < E.cols ensures L.at[i][j] == R.at[i][j] {
      SwapRowSum(G.at[i], SwappedCols(G, p, q).at[i], E, p, q, j);
    }
    Ext(L, R);
  }

  lemma ScaleInverse(G: Mat, E: Mat, r: nat, s: real)
    requires G.cols == E.rows && r < E.rows && s != 0.0
    ensures Mul(DividedCol(G, r, s), ScaledRow(E, r, s)) == Mul(G, E)
  {
    var L, R := Mul(DividedCol(G, r, s), ScaledRow(E, r, s)), Mul(G, E);
    forall i, j | 0 <= i < G.rows && 0 <= j < E.cols ensures L.at[i][j] == R.at[i][j] {
      ColDotCong(DividedCol(G, r, s).at[i], ScaledRow(E, r, s), G.at[i], E, j, j, E.rows);
    }
    Ext(L, R);
  }

  lemma ReduceInverse(G: Mat, E: Mat, r: nat, c: nat, f: real)
    requires G.cols == E.rows && r < E.rows && c < E.rows && r != c
    ensures Mul(AddedCol(G, c, r, f), ReducedRow(E, r, c, f)) == Mul(G, E)
  {
    var L, R := Mul(AddedCol(G, c, r, f), ReducedRow(E, r, c, f)), Mul(G, E);
    forall i, j | 0 <= i < G.rows && 0 <= j < E.cols ensures L.at[i][j] == R.at[i][j] {
      ReduceRowSum(G.at[i], AddedCol(G, c, r, f).at[i], E, r, c, f, j);
    }
    Ext(L, R);
  }

  // ---- what elimination establishes ----

  const TINY := 0.000000000001

  /** The first c columns of W are those of the identity. */
  ghost predicate UnitColumns(W: Mat, c: nat)
    requires c <= W.cols == W.rows
  {
    forall i, j :: 0 <= i < W.rows && 0 <= j < c ==> W.at[i][j] == if i == j then 1.0 else 0.0
  }

  /** An elimination state reached from S: invertible row operations E with ES = W, col columns done. */
  ghost predicate Eliminated(S: Mat, W: Mat, E: Mat, G: Mat, col: nat) {
    && S.rows == S.cols == W.rows == W.cols == E.rows == E.cols == G.rows == G.cols
    && col <= S.rows
    && Mul(E, S) == W
    && Mul(G, E) == Id(S.rows)
    && UnitColumns(W, col)
  }

  ghost predicate Permutation(pi: seq<nat>) {
    (forall k :: 0 <= k < |pi| ==> pi[k] < |pi|)
    && forall k, l :: 0 <= k < l < |pi| ==> pi[k] != pi[l]
  }

  /**
   The columns pi[k], k >= col, of E are unit columns: row i >= col takes row pi[i] of S with weight
   one, and otherwise, like the rows before it, only combines the pivot rows pi[..col].
   */
  ghost predicate Unscaled(E: Mat, pi: seq<nat>, col: nat)
  {
    |pi| == E.rows == E.cols && Permutation(pi)
    && forall i, k :: 0 <= i < E.rows && col <= k < E.rows ==> E.at[i][pi[k]] == if i == k then 1.0 else 0.0
  }

  /**
   S has no pivot of size 1e-12 left for some column: every row of S outside the pivot rows, less the
   combination of pivot rows that clears the columns before, is below 1e-12 there.
   */
  ghost predicate NoPivot(S: Mat) {
    exists W: Mat, E: Mat, G: Mat, pi: seq<nat>, col: nat ::
      && Eliminated(S, W, E, G, col) && Unscaled(E, pi, col) && col < S.rows
      && forall i :: col <= i < S.rows ==> Abs(W.at[i][col]) < TINY
  }

  /** All columns done: E is the two-sided inverse of S, whether or not S is symmetric. */
  lemma EliminationInverts(S: Mat, W: Mat, E: Mat, G: Mat)
    requires Eliminated(S, W, E, G, S.rows)
    ensures Mul(E, S) == Id(S.rows) && Mul(S, E) == Id(S.rows)
  {
    Ext(W, Id(S.rows));
    MulAssoc(G, E, S);
    MulId(S);
    MulId(G);
  }

  /** The inverse of a symmetric matrix is symmetric. */
  lemma InverseSymmetric(S: Mat, E: Mat)
    requires S.rows == S.cols == E.rows == E.cols && Symmetric(S)
    requires Mul(E, S) == Id(S.rows)
    ensures Symmetric(E) && Mul(S, E) == Id(S.rows)
  {
    TrMul(E, S);
    TrDiag(seq(S.rows, _ => 1.0));
    MulAssoc(E, S, Tr(E));
    MulId(E);
    MulId(Tr(E));
  }

  /** Two left inverses of an invertible matrix agree. */
  lemma InverseUnique(S: Mat, E: Mat, E': Mat)
    requires S.rows == S.cols == E.rows == E.cols == E'.rows == E'.cols
    requires Mul(S, E) == Id(S.rows) && Mul(E', S) == Id(S.rows)
    ensures E == E'
  {
    MulAssoc(E', S, E);
    MulId(E);
    MulId(E');
  }

  lemma NoPivotSingleOnly(S: Mat, W: Mat, E: Mat, G: Mat, pi: seq<nat>)
    requires S.rows == 1 && Eliminated(S, W, E, G, 0) && Unscaled(E, pi, 0)
    ensures W.at[0][0] == S.at[0][0]
  {
    assert pi[0] == 0 && E.at[0][pi[0]] == 1.0;
    ColDotOne(E.at[0], S, 0, 1, 0);
  }

  /** With one measurement, no pivot means just that the innovation variance is below 1e-12. */
  lemma NoPivotSingle(S: Mat)
    requires S.rows == S.cols == 1
    ensures NoPivot(S) <==> Abs(S.at[0][0]) < TINY
  {
    if NoPivot(S) {
      var W: Mat, E: Mat, G: Mat, pi: seq<nat>, col: nat :|
        Eliminated(S, W, E, G, col) && Unscaled(E, pi, col) && col < S.rows
        && forall i :: col <= i < S.rows ==> Abs(W.at[i][col]) < TINY;
      NoPivotSingleOnly(S, W, E, G, pi);
    }
    if Abs(S.at[0][0]) < TINY {
      MulId(S);
      MulId(Id(1));
      assert Eliminated(S, S, Id(1), Id(1), 0);
      assert Unscaled(Id(1), [0], 0);
    }
  }
}
