/** Real matrices of any size as values, and the ring laws the filter's algebra rests on. */
module Matrices {

  datatype RawMat = Matrix(rows: nat, cols: nat, at: seq<seq<real>>) {
    predicate WellFormed() {
      |at| == rows && forall i :: 0 <= i < rows ==> |at[i]| == cols
    }
  }

  type Mat = m: RawMat | m.WellFormed() witness Matrix(0, 0, [])

  /** The first n terms of the product of the row u with column j of B. */
  function ColDot(u: seq<real>, B: Mat, j: nat, n: nat): real
    requires n <= |u| && n <= B.rows && j < B.cols
  {
    if n == 0 then 0.0 else ColDot(u, B, j, n - 1) + u[n - 1] * B.at[n - 1][j]
  }

  function RowMul(u: seq<real>, B: Mat): (v: seq<real>)
    requires |u| == B.rows
    ensures |v| == B.cols && forall j :: 0 <= j < B.cols ==> v[j] == ColDot(u, B, j, B.rows)
  {
    seq(B.cols, j requires 0 <= j < B.cols => ColDot(u, B, j, B.rows))
  }

  function Mul(A: Mat, B: Mat): (C: Mat)
    requires A.cols == B.rows
    ensures C.rows == A.rows && C.cols == B.cols
    ensures forall i :: 0 <= i < A.rows ==> C.at[i] == RowMul(A.at[i], B)
    ensures forall i, j :: 0 <= i < A.rows && 0 <= j < B.cols ==> C.at[i][j] == ColDot(A.at[i], B, j, B.rows)
  {
    Matrix(A.rows, B.cols, seq(A.rows, i requires 0 <= i < A.rows => RowMul(A.at[i], B)))
  }

  /** A + s·B. */
  function Plus(A: Mat, s: real, B: Mat): (C: Mat)
    requires A.rows == B.rows && A.cols == B.cols
    ensures C.rows == A.rows && C.cols == A.cols
    ensures forall i, j :: 0 <= i < A.rows && 0 <= j < A.cols ==> C.at[i][j] == A.at[i][j] + s * B.at[i][j]
  {
    Matrix(A.rows, A.cols,
           seq(A.rows, i requires 0 <= i < A.rows =>
             seq(A.cols, j requires 0 <= j < A.cols => A.at[i][j] + s * B.at[i][j])))
  }

  function Tr(A: Mat): (T: Mat)
    ensures T.rows == A.cols && T.cols == A.rows
    ensures forall i, j :: 0 <= i < A.cols && 0 <= j < A.rows ==> T.at[i][j] == A.at[j][i]
  {
    Matrix(A.cols, A.rows,
           seq(A.cols, i requires 0 <= i < A.cols =>
             seq(A.rows, j requires 0 <= j < A.rows => A.at[j][i])))
  }

  function Diag(d: seq<real>): (D: Mat)
    ensures D.rows == |d| && D.cols == |d|
    ensures forall i, j :: 0 <= i < |d| && 0 <= j < |d| ==> D.at[i][j] == if i == j then d[i] else 0.0
  {
    Matrix(|d|, |d|, seq(|d|, i requires 0 <= i < |d| => seq(|d|, j => if i == j then d[i] else 0.0)))
  }

  function Id(n: nat): (D: Mat)
    ensures D.rows == n && D.cols == n
    ensures forall i, j :: 0 <= i < n && 0 <= j < n ==> D.at[i][j] == if i == j then 1.0 else 0.0
  {
    Diag(seq(n, _ => 1.0))
  }

  function Row(x: seq<real>): (X: Mat)
    ensures X.rows == 1 && X.cols == |x| && X.at[0] == x
  {
    Matrix(1, |x|, [x])
  }

  ghost predicate Same(A: Mat, B: Mat) {
    A.rows == B.rows && A.cols == B.cols
    && forall i, j :: 0 <= i < A.rows && 0 <= j < A.cols ==> A.at[i][j] == B.at[i][j]
  }

  lemma Ext(A: Mat, B: Mat)
    requires Same(A, B)
    ensures A == B
  {
    forall i | 0 <= i < A.rows ensures A.at[i] == B.at[i] {
    }
  }

  // ---- sums ----

  lemma {:induction false} ColDotCong(u: seq<real>, A: Mat, v: seq<real>, B: Mat, i: nat, j: nat, n: nat)
    requires n <= |u| && n <= A.rows && i < A.cols && n <= |v| && n <= B.rows && j < B.cols
    requires forall k :: 0 <= k < n ==> u[k] * A.at[k][i] == v[k] * B.at[k][j]
    ensures ColDot(u, A, i, n) == ColDot(v, B, j, n)
  {
    if n > 0 { ColDotCong(u, A, v, B, i, j, n - 1); }
  }

  lemma ScaledStep(p: real, x: real, s: real, q: real, y: real, z: real, b: real)
    requires z == x + s * y
    ensures (p + s * q) + z * b == (p + x * b) + s * (q + y * b)
  {
    assert z * b == x * b + s * (y * b);
  }

  lemma {:induction false} ColDotLinear(w: seq<real>, u: seq<real>, s: real, v: seq<real>, B: Mat, j: nat, n: nat)
    requires n <= |u| && n <= |v| && n <= |w| && n <= B.rows && j < B.cols
    requires forall k :: 0 <= k < n ==> w[k] == u[k] + s * v[k]
    ensures ColDot(w, B, j, n) == ColDot(u, B, j, n) + s * ColDot(v, B, j, n)
  {
    if n > 0 {
      ColDotLinear(w, u, s, v, B, j, n - 1);
      ScaledStep(ColDot(u, B, j, n - 1), u[n - 1], s, ColDot(v, B, j, n - 1), v[n - 1], w[n - 1], B.at[n - 1][j]);
    }
  }

  /** One more term of a sum of x·(a + s·b). */
  lemma LinearStep(x: real, a: real, s: real, b: real, p: real, q: real)
    ensures (p + s * q) + x * (a + s * b) == (p + x * a) + s * (q + x * b)
  {
    assert x * (a + s * b) == x * a + s * (x * b);
  }

  lemma {:induction false} ColDotLinearRight(u: seq<real>, C: Mat, A: Mat, s: real, B: Mat, j: nat, n: nat)
    requires A.rows == B.rows == C.rows && A.cols == B.cols == C.cols && n <= |u| && n <= B.rows && j < B.cols
    requires forall k :: 0 <= k < n ==> C.at[k][j] == A.at[k][j] + s * B.at[k][j]
    ensures ColDot(u, C, j, n) == ColDot(u, A, j, n) + s * ColDot(u, B, j, n)
  {
    if n > 0 {
      ColDotLinearRight(u, C, A, s, B, j, n - 1);
      LinearStep(u[n - 1], A.at[n - 1][j], s, B.at[n - 1][j], ColDot(u, A, j, n - 1), ColDot(u, B, j, n - 1));
    }
  }

  lemma {:induction false} ColDotZero(u: seq<real>, B: Mat, j: nat, n: nat)
    requires n <= |u| && n <= B.rows && j < B.cols
    requires forall k :: 0 <= k < n ==> u[k] == 0.0 || B.at[k][j] == 0.0
    ensures ColDot(u, B, j, n) == 0.0
  {
    if n > 0 { ColDotZero(u, B, j, n - 1); }
  }

  /** A sum with one nonzero term. */
  lemma {:induction false} ColDotOne(u: seq<real>, B: Mat, j: nat, n: nat, p: nat)
    requires p < n <= |u| && n <= B.rows && j < B.cols
    requires forall k :: 0 <= k < n && k != p ==> u[k] == 0.0 || B.at[k][j] == 0.0
    ensures ColDot(u, B, j, n) == u[p] * B.at[p][j]
  {
    if p == n - 1 { ColDotZero(u, B, j, n - 1); } else { ColDotOne(u, B, j, n - 1, p); }
  }

  /** A sum with two nonzero terms. */
  lemma {:induction false} ColDotTwo(u: seq<real>, B: Mat, j: nat, n: nat, p: nat, q: nat)
    requires p < n <= |u| && q < n <= B.rows && p != q && j < B.cols
    requires forall k :: 0 <= k < n && k != p && k != q ==> u[k] == 0.0 || B.at[k][j] == 0.0
    ensures ColDot(u, B, j, n) == u[p] * B.at[p][j] + u[q] * B.at[q][j]
  {
    if p == n - 1 {
      ColDotOne(u, B, j, n - 1, q);
    } else if q == n - 1 {
      ColDotOne(u, B, j, n - 1, p);
    } else {
      ColDotTwo(u, B, j, n - 1, p, q);
    }
  }

  // ---- associativity ----

  /** The first m terms of every entry of uB. */
  function Partial(u: seq<real>, B: Mat, m: nat): (w: seq<real>)
    requires m <= |u| && m <= B.rows
    ensures |w| == B.cols && forall k :: 0 <= k < B.cols ==> w[k] == ColDot(u, B, k, m)
  {
    seq(B.cols, k requires 0 <= k < B.cols => ColDot(u, B, k, m))
  }

  /** Exchange of the two sums, one row of the left factor at a time; P is the product BC. */
  lemma {:induction false} ColDotAssoc(u: seq<real>, B: Mat, C: Mat, P: Mat, j: nat, m: nat, w: seq<real>)
    requires B.cols == C.rows && m <= |u| && m <= B.rows == P.rows && j < C.cols == P.cols
    requires |w| == B.cols && forall k :: 0 <= k < B.cols ==> w[k] == ColDot(u, B, k, m)
    requires forall k :: 0 <= k < B.rows ==> P.at[k][j] == ColDot(B.at[k], C, j, C.rows)
    ensures ColDot(w, C, j, C.rows) == ColDot(u, P, j, m)
  {
    if m == 0 {
      ColDotZero(w, C, j, C.rows);
    } else {
      var w' := Partial(u, B, m - 1);
      PartialStep(u, B, m, w, w');
      ColDotAssoc(u, B, C, P, j, m - 1, w');
      AssocStep(u, B.at[m - 1], C, P, j, m, w, w');
    }
  }

  lemma {:induction false} AssocStep(u: seq<real>, v: seq<real>, C: Mat, P: Mat, j: nat, m: nat, w: seq<real>, w': seq<real>)
    requires 0 < m <= |u| && m <= P.rows && j < C.cols == P.cols && |v| == |w| == |w'| == C.rows
    requires forall k :: 0 <= k < C.rows ==> w[k] == w'[k] + u[m - 1] * v[k]
    requires P.at[m - 1][j] == ColDot(v, C, j, C.rows) && ColDot(w', C, j, C.rows) == ColDot(u, P, j, m - 1)
    ensures ColDot(w, C, j, C.rows) == ColDot(u, P, j, m)
  {
    ColDotLinear(w, w', u[m - 1], v, C, j, C.rows);
    LastTerm(u, P, j, m, ColDot(v, C, j, C.rows));
  }

  lemma {:induction false} LastTerm(u: seq<real>, P: Mat, j: nat, m: nat, t: real)
    requires 0 < m <= |u| && m <= P.rows && j < P.cols && P.at[m - 1][j] == t
    ensures ColDot(u, P, j, m) == ColDot(u, P, j, m - 1) + u[m - 1] * t
  {
  }

  lemma PartialStep(u: seq<real>, B: Mat, m: nat, w: seq<real>, w': seq<real>)
    requires 0 < m <= |u| && m <= B.rows && |w| == |w'| == B.cols
    requires forall k :: 0 <= k < B.cols ==> w[k] == ColDot(u, B, k, m)
    requires forall k :: 0 <= k < B.cols ==> w'[k] == ColDot(u, B, k, m - 1)
    ensures forall k :: 0 <= k < B.cols ==> w[k] == w'[k] + u[m - 1] * B.at[m - 1][k]
  {
  }

  lemma MulAssoc(A: Mat, B: Mat, C: Mat)
    requires A.cols == B.rows && B.cols == C.rows
    ensures Mul(Mul(A, B), C) == Mul(A, Mul(B, C))
  {
    var L, R := Mul(Mul(A, B), C), Mul(A, Mul(B, C));
    forall i, j | 0 <= i < A.rows && 0 <= j < C.cols ensures L.at[i][j] == R.at[i][j] {
      ColDotAssoc(A.at[i], B, C, Mul(B, C), j, B.rows, Mul(A, B).at[i]);
    }
    Ext(L, R);
  }

  lemma MulPlusLeft(A: Mat, s: real, B: Mat, C: Mat)
    requires A.rows == B.rows && A.cols == B.cols == C.rows
    ensures Mul(Plus(A, s, B), C) == Plus(Mul(A, C), s, Mul(B, C))
  {
    var L, R := Mul(Plus(A, s, B), C), Plus(Mul(A, C), s, Mul(B, C));
    forall i, j | 0 <= i < A.rows && 0 <= j < C.cols ensures L.at[i][j] == R.at[i][j] {
      ColDotLinear(Plus(A, s, B).at[i], A.at[i], s, B.at[i], C, j, C.rows);
    }
    Ext(L, R);
  }

  lemma MulPlusRight(A: Mat, B: Mat, s: real, C: Mat)
    requires A.cols == B.rows == C.rows && B.cols == C.cols
    ensures Mul(A, Plus(B, s, C)) == Plus(Mul(A, B), s, Mul(A, C))
  {
    var L, R := Mul(A, Plus(B, s, C)), Plus(Mul(A, B), s, Mul(A, C));
    forall i, j | 0 <= i < A.rows && 0 <= j < C.cols ensures L.at[i][j] == R.at[i][j] {
      ColDotLinearRight(A.at[i], Plus(B, s, C), B, s, C, j, C.rows);
    }
    Ext(L, R);
  }

  // ---- identity, diagonal, transpose ----

  lemma MulDiag(A: Mat, d: seq<real>)
    requires A.cols == |d|
    ensures forall i, j :: 0 <= i < A.rows && 0 <= j < A.cols ==> Mul(A, Diag(d)).at[i][j] == A.at[i][j] * d[j]
  {
    forall i, j | 0 <= i < A.rows && 0 <= j < A.cols ensures Mul(A, Diag(d)).at[i][j] == A.at[i][j] * d[j] {
      ColDotOne(A.at[i], Diag(d), j, A.cols, j);
    }
  }

  lemma MulId(A: Mat)
    ensures Mul(A, Id(A.cols)) == A
    ensures Mul(Id(A.rows), A) == A
  {
    var ones := seq(A.cols, _ => 1.0);
    MulDiag(A, ones);
    forall i, j | 0 <= i < A.rows && 0 <= j < A.cols ensures Mul(A, Id(A.cols)).at[i][j] == A.at[i][j] {
      assert Mul(A, Diag(ones)).at[i][j] == A.at[i][j] * ones[j];
    }
    Ext(Mul(A, Id(A.cols)), A);
    forall i, j | 0 <= i < A.rows && 0 <= j < A.cols ensures Mul(Id(A.rows), A).at[i][j] == A.at[i][j] {
      ColDotOne(Id(A.rows).at[i], A, j, A.rows, i);
    }
    Ext(Mul(Id(A.rows), A), A);
  }

  lemma TrTr(A: Mat)
    ensures Tr(Tr(A)) == A
  {
    Ext(Tr(Tr(A)), A);
  }

  lemma TrPlus(A: Mat, s: real, B: Mat)
    requires A.rows == B.rows && A.cols == B.cols
    ensures Tr(Plus(A, s, B)) == Plus(Tr(A), s, Tr(B))
  {
    Ext(Tr(Plus(A, s, B)), Plus(Tr(A), s, Tr(B)));
  }

  lemma TrDiag(d: seq<real>)
    ensures Tr(Diag(d)) == Diag(d)
  {
    Ext(Tr(Diag(d)), Diag(d));
  }

  lemma TrMul(A: Mat, B: Mat)
    requires A.cols == B.rows
    ensures Tr(Mul(A, B)) == Mul(Tr(B), Tr(A))
  {
    var L, R := Tr(Mul(A, B)), Mul(Tr(B), Tr(A));
    forall i, j | 0 <= i < B.cols && 0 <= j < A.rows ensures L.at[i][j] == R.at[i][j] {
      ColDotCong(A.at[j], B, Tr(B).at[i], Tr(A), i, j, B.rows);
    }
    Ext(L, R);
  }

  // ---- symmetry and the quadratic-form order ----

  ghost predicate Symmetric(P: Mat) {
    P.rows == P.cols && Tr(P) == P
  }

  /** x P xᵀ for a row vector x. */
  function Quad(x: seq<real>, P: Mat): real
    requires |x| == P.rows == P.cols
  {
    Mul(Mul(Row(x), P), Tr(Row(x))).at[0][0]
  }

  ghost predicate Psd(P: Mat) {
    P.rows == P.cols && forall x: seq<real> {:trigger Quad(x, P)} :: |x| == P.rows ==> Quad(x, P) >= 0.0
  }

  lemma SymmetricEntries(P: Mat)
    requires P.rows == P.cols
    ensures Symmetric(P) <==> forall i, j :: 0 <= i < P.rows && 0 <= j < P.rows ==> P.at[i][j] == P.at[j][i]
  {
    if forall i, j :: 0 <= i < P.rows && 0 <= j < P.rows ==> P.at[i][j] == P.at[j][i] {
      Ext(Tr(P), P);
    }
    if Symmetric(P) {
      forall i, j | 0 <= i < P.rows && 0 <= j < P.rows ensures P.at[i][j] == P.at[j][i] {
        assert Tr(P).at[i][j] == P.at[j][i];
      }
    }
  }

  lemma QuadPlus(x: seq<real>, A: Mat, s: real, B: Mat)
    requires |x| == A.rows == A.cols == B.rows == B.cols
    ensures Quad(x, Plus(A, s, B)) == Quad(x, A) + s * Quad(x, B)
  {
    var X := Row(x);
    MulPlusRight(X, A, s, B);
    MulPlusLeft(Mul(X, A), s, Mul(X, B), Tr(X));
  }

  /** x (A P Aᵀ) xᵀ is the quadratic form of P at xA. */
  lemma QuadCongruence(x: seq<real>, A: Mat, P: Mat)
    requires |x| == A.rows && A.cols == P.rows == P.cols
    ensures Quad(x, Mul(Mul(A, P), Tr(A))) == Quad(RowMul(x, A), P)
  {
    var X := Row(x);
    var Y := Mul(X, A);
    Ext(Y, Row(RowMul(x, A)));
    calc {
      Mul(Mul(X, Mul(Mul(A, P), Tr(A))), Tr(X));
      { MulAssoc(X, Mul(A, P), Tr(A)); MulAssoc(X, A, P); }
      Mul(Mul(Mul(Y, P), Tr(A)), Tr(X));
      { MulAssoc(Mul(Y, P), Tr(A), Tr(X)); TrMul(X, A); }
      Mul(Mul(Y, P), Tr(Y));
    }
  }

  /** The sum of d[k]·x[k]² over the first n entries. */
  function WeightedSquares(x: seq<real>, d: seq<real>, n: nat): (r: real)
    requires n <= |x| && n <= |d|
    ensures (forall k :: 0 <= k < n ==> d[k] >= 0.0) ==> r >= 0.0
  {
    if n == 0 then 0.0 else WeightedSquares(x, d, n - 1) + d[n - 1] * (x[n - 1] * x[n - 1])
  }

  lemma {:induction false} WeightedTerms(u: seq<real>, X: Mat, x: seq<real>, d: seq<real>, n: nat)
    requires n <= |x| == |d| == |u| == X.rows && X.cols == 1
    requires forall k :: 0 <= k < |x| ==> u[k] == x[k] * d[k] && X.at[k][0] == x[k]
    ensures ColDot(u, X, 0, n) == WeightedSquares(x, d, n)
  {
    if n > 0 {
      WeightedTerms(u, X, x, d, n - 1);
      assert (x[n - 1] * d[n - 1]) * x[n - 1] == d[n - 1] * (x[n - 1] * x[n - 1]);
    }
  }

  lemma RowTimesDiag(x: seq<real>, d: seq<real>)
    requires |x| == |d|
    ensures forall k :: 0 <= k < |x| ==> Mul(Row(x), Diag(d)).at[0][k] == x[k] * d[k]
  {
    var D := Diag(d);
    forall k | 0 <= k < |x| ensures Mul(Row(x), D).at[0][k] == x[k] * d[k] {
      ColDotOne(x, D, k, |x|, k);
    }
  }

  lemma QuadDiag(x: seq<real>, d: seq<real>)
    requires |x| == |d|
    ensures Quad(x, Diag(d)) == WeightedSquares(x, d, |d|)
  {
    var Y, X := Mul(Row(x), Diag(d)), Tr(Row(x));
    RowTimesDiag(x, d);
    WeightedTerms(Y.at[0], X, x, d, |d|);
  }

  lemma PsdDiag(d: seq<real>)
    requires forall k :: 0 <= k < |d| ==> d[k] >= 0.0
    ensures Psd(Diag(d))
  {
    forall x: seq<real> | |x| == |d| ensures Quad(x, Diag(d)) >= 0.0 {
      QuadDiag(x, d);
    }
  }

  lemma PsdPlus(A: Mat, B: Mat)
    requires Psd(A) && Psd(B) && A.rows == B.rows
    ensures Psd(Plus(A, 1.0, B))
  {
    forall x: seq<real> | |x| == A.rows ensures Quad(x, Plus(A, 1.0, B)) >= 0.0 {
      QuadPlus(x, A, 1.0, B);
    }
  }

  lemma PsdCongruence(A: Mat, P: Mat)
    requires Psd(P) && A.cols == P.rows
    ensures Psd(Mul(Mul(A, P), Tr(A)))
  {
    var C := Mul(Mul(A, P), Tr(A));
    forall x: seq<real> | |x| == C.rows ensures Quad(x, C) >= 0.0 {
      QuadCongruence(x, A, P);
    }
  }

  lemma SymmetricCongruence(A: Mat, P: Mat)
    requires Symmetric(P) && A.cols == P.rows
    ensures Symmetric(Mul(Mul(A, P), Tr(A)))
  {
    var C := Mul(Mul(A, P), Tr(A));
    calc {
      Tr(C);
      { TrMul(Mul(A, P), Tr(A)); TrTr(A); }
      Mul(A, Tr(Mul(A, P)));
      { TrMul(A, P); }
      Mul(A, Mul(P, Tr(A)));
      { MulAssoc(A, P, Tr(A)); }
      C;
    }
  }

  lemma SymmetricPlus(A: Mat, s: real, B: Mat)
    requires Symmetric(A) && Symmetric(B) && A.rows == B.rows
    ensures Symmetric(Plus(A, s, B))
  {
    TrPlus(A, s, B);
  }
}
