/** The state correction of a measurement: which way the state moves, and what is left of the innovation. */
module StateUpdate {
  import opened Matrices
  import opened Covariance

  /** x + K·innov. */
  function Corrected(x: seq<real>, K: Mat, innov: seq<real>): (x': seq<real>)
    requires |x| == K.rows && |innov| == K.cols
    ensures |x'| == |x|
  {
    seq(|x|, i requires 0 <= i < |x| => x[i] + ColDot(K.at[i], Tr(Row(innov)), 0, K.cols))
  }

  function ColumnOf(v: seq<real>): (V: Mat)
    ensures V.rows == |v| && V.cols == 1 && forall i :: 0 <= i < |v| ==> V.at[i][0] == v[i]
  {
    Tr(Row(v))
  }

  function Change(x: seq<real>, x': seq<real>): (d: seq<real>)
    requires |x| == |x'|
    ensures |d| == |x| && forall i :: 0 <= i < |x| ==> d[i] == x'[i] - x[i]
  {
    seq(|x|, i requires 0 <= i < |x| => x'[i] - x[i])
  }

  /** y solves S·y = innov, and the state moves by P·Hᵀ·y. */
  ghost predicate MovesBy(x: seq<real>, x': seq<real>, P: Mat, H: Mat, R: seq<real>, innov: seq<real>, y: Mat) {
    && Dims(P, H, R) && |x| == |x'| == P.rows && |innov| == |R| == y.rows && y.cols == 1
    && Mul(Innovation(P, H, R), y) == ColumnOf(innov)
    && ColumnOf(Change(x, x')) == Mul(Mul(P, Tr(H)), y)
  }

  /** The correction by the gain of an inverse of S is that move. */
  lemma {:induction false} CorrectionMoves(x: seq<real>, x': seq<real>, P: Mat, H: Mat, R: seq<real>, innov: seq<real>, Sinv: Mat)
    requires Dims(P, H, R) && |x| == P.rows && |innov| == |R| == Sinv.rows == Sinv.cols
    requires Mul(Innovation(P, H, R), Sinv) == Id(|R|) && x' == Corrected(x, Gain(P, H, Sinv), innov)
    ensures MovesBy(x, x', P, H, R, innov, Mul(Sinv, ColumnOf(innov)))
  {
    var S, PHt, e := Innovation(P, H, R), Mul(P, Tr(H)), ColumnOf(innov);
    MulAssoc(S, Sinv, e);
    MulId(e);
    MulAssoc(PHt, Sinv, e);
    ChangeIsProduct(x, x', Gain(P, H, Sinv), innov);
  }

  lemma {:induction false} ChangeIsProduct(x: seq<real>, x': seq<real>, K: Mat, innov: seq<real>)
    requires |x| == K.rows && |innov| == K.cols && x' == Corrected(x, K, innov)
    ensures ColumnOf(Change(x, x')) == Mul(K, ColumnOf(innov))
  {
    forall i | 0 <= i < |x| ensures ColumnOf(Change(x, x')).at[i][0] == Mul(K, ColumnOf(innov)).at[i][0] {
      assert x'[i] - x[i] == ColDot(K.at[i], ColumnOf(innov), 0, K.cols);
    }
    Ext(ColumnOf(Change(x, x')), Mul(K, ColumnOf(innov)));
  }

  /** What the measurement matrix makes of the state's change. */
  function Seen(H: Mat, x: seq<real>, x': seq<real>, r: nat): real
    requires |x| == |x'| == H.cols && r < H.rows
  {
    ColDot(H.at[r], ColumnOf(Change(x, x')), 0, H.cols)
  }

  lemma {:induction false} DiagTimes(d: seq<real>, y: Mat, r: nat)
    requires |d| == y.rows && y.cols == 1 && r < |d|
    ensures Mul(Diag(d), y).at[r][0] == d[r] * y.at[r][0]
  {
    ColDotOne(Diag(d).at[r], y, 0, |d|, r);
  }

  /** What is left of the innovation after the move is, row by row, the noise times y. */
  lemma {:induction false} ResidualLeft(x: seq<real>, x': seq<real>, P: Mat, H: Mat, R: seq<real>, innov: seq<real>, y: Mat, r: nat)
    requires MovesBy(x, x', P, H, R, innov, y) && r < |R|
    ensures innov[r] - Seen(H, x, x', r) == R[r] * y.at[r][0]
  {
    var PHt := Mul(P, Tr(H));
    MulPlusLeft(Mul(H, PHt), 1.0, Diag(R), y);
    MulAssoc(H, PHt, y);
    DiagTimes(R, y, r);
    assert ColumnOf(innov).at[r][0] == innov[r];
  }

  /** With one row the innovation shrinks by exactly the ratio of noise and innovation variance. */
  lemma {:induction false} OneRowShrinks(x: seq<real>, x': seq<real>, P: Mat, H: Mat, R: seq<real>, innov: seq<real>, y: Mat)
    requires MovesBy(x, x', P, H, R, innov, y) && |R| == 1
    ensures (innov[0] - Seen(H, x, x', 0)) * Innovation(P, H, R).at[0][0] == R[0] * innov[0]
  {
    var S := Innovation(P, H, R);
    ResidualLeft(x, x', P, H, R, innov, y, 0);
    ColDotOne(S.at[0], y, 0, 1, 0);
    assert ColumnOf(innov).at[0][0] == innov[0];
    Swap(innov[0] - Seen(H, x, x', 0), S.at[0][0], R[0], y.at[0][0], innov[0]);
  }

  lemma {:induction false} OneRowVariance(P: Mat, H: Mat, R: seq<real>)
    requires Dims(P, H, R) && |R| == 1 && Psd(P)
    ensures Innovation(P, H, R).at[0][0] >= R[0]
  {
    var X := Mul(H, Mul(P, Tr(H)));
    PsdCongruence(H, P);
    MulAssoc(H, P, Tr(H));
    var one := [1.0];
    assert Quad(one, X) >= 0.0;
    ColDotOne(one, X, 0, 1, 0);
    ColDotOne(RowMul(one, X), Tr(Row(one)), 0, 1, 0);
  }

  /** So with a covariance and noise the innovation keeps its sign and never grows. */
  lemma {:induction false} OneRowNearer(x: seq<real>, x': seq<real>, P: Mat, H: Mat, R: seq<real>, innov: seq<real>, y: Mat)
    requires MovesBy(x, x', P, H, R, innov, y) && |R| == 1 && Psd(P) && R[0] > 0.0
    ensures var left := innov[0] - Seen(H, x, x', 0);
            if innov[0] >= 0.0 then 0.0 <= left <= innov[0] else innov[0] <= left <= 0.0
  {
    OneRowShrinks(x, x', P, H, R, innov, y);
    OneRowVariance(P, H, R);
    Nearer(innov[0] - Seen(H, x, x', 0), Innovation(P, H, R).at[0][0], R[0], innov[0]);
  }

  lemma Nearer(left: real, s: real, n: real, e: real)
    requires left * s == n * e && s >= n > 0.0
    ensures if e >= 0.0 then 0.0 <= left <= e else e <= left <= 0.0
  {
    var k := n / s;
    assert k * s == n;
    assert (left - k * e) * s == 0.0;
    assert left == k * e;
    assert 0.0 <= k <= 1.0;
  }

  lemma Swap(a: real, s: real, n: real, y: real, e: real)
    requires a == n * y && s * y == e
    ensures a * s == n * e
  {
    assert n * y * s == n * (s * y);
  }
}
