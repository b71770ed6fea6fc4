/**
 The 16-state covariance over whole runs of predictions and measurement updates,
 with the variance floors and ceilings the filter applies after each update.
 */
module FilterRuns {
  import opened Matrices
  import opened Covariance
  import opened RealFunctions

  const N: nat := 16

  const P_MIN := 0.000000000001
  const P_MAX_BIAS_A := 1.0
  const P_MAX_BIAS_G := 0.25

  /** Quaternion, accelerometer bias and gyro bias states have a floor. */
  predicate HasFloor(i: nat) { 6 <= i <= 15 }

  /** Only the bias states have a ceiling. */
  predicate HasCeiling(i: nat) { 10 <= i <= 15 }

  function Ceiling(i: nat): real { if i <= 12 then P_MAX_BIAS_A else P_MAX_BIAS_G }

  function ClampVariance(i: nat, v: real): (r: real)
    ensures HasFloor(i) ==> r >= P_MIN
    ensures HasCeiling(i) ==> r <= Ceiling(i)
    ensures r > v ==> HasFloor(i) && v < P_MIN
    ensures r < v ==> HasCeiling(i) && v > Ceiling(i)
  {
    var v' := if HasFloor(i) && v < P_MIN then P_MIN else v;
    if HasCeiling(i) && v' > Ceiling(i) then Ceiling(i) else v'
  }

  /** What clamping adds to each diagonal entry. */
  function ClampDeltas(P: Mat): (d: seq<real>)
    requires P.rows == P.cols
    ensures |d| == P.rows && forall i :: 0 <= i < |d| ==> d[i] == ClampVariance(i, P.at[i][i]) - P.at[i][i]
  {
    seq(P.rows, i requires 0 <= i < P.rows => ClampVariance(i, P.at[i][i]) - P.at[i][i])
  }

  function Constrained(P: Mat): (P': Mat)
    requires P.rows == P.cols
    ensures P'.rows == P'.cols == P.rows
    ensures forall i, j :: 0 <= i < P.rows && 0 <= j < P.rows ==>
              P'.at[i][j] == if i == j then ClampVariance(i, P.at[i][i]) else P.at[i][j]
  {
    Plus(P, 1.0, Diag(ClampDeltas(P)))
  }

  predicate CeilingFires(P: Mat)
    requires P.rows == P.cols
  {
    exists i :: 0 <= i < P.rows && HasCeiling(i) && P.at[i][i] > Ceiling(i)
  }

  lemma ConstrainedSymmetric(P: Mat)
    requires Symmetric(P)
    ensures Symmetric(Constrained(P))
  {
    TrDiag(ClampDeltas(P));
    SymmetricPlus(P, 1.0, Diag(ClampDeltas(P)));
  }

  /** Floors only add to the diagonal, so without a ceiling the clamp keeps the covariance. */
  lemma FloorsKeepPsd(P: Mat)
    requires Psd(P) && !CeilingFires(P)
    ensures Psd(Constrained(P))
  {
    PsdDiag(ClampDeltas(P));
    PsdPlus(P, Diag(ClampDeltas(P)));
  }

  // ---- ceilings can break the covariance ----

  /** a·e_p + b·e_q. */
  function TwoEntries(n: nat, p: nat, a: real, q: nat, b: real): (x: seq<real>)
    ensures |x| == n && forall k :: 0 <= k < n ==> x[k] == if k == p then a else if k == q then b else 0.0
  {
    seq(n, k => if k == p then a else if k == q then b else 0.0)
  }

  lemma QuadTwoEntries(P: Mat, p: nat, a: real, q: nat, b: real)
    requires P.rows == P.cols && p < P.rows && q < P.rows && p != q
    ensures Quad(TwoEntries(P.rows, p, a, q, b), P)
         == (a * P.at[p][p] + b * P.at[q][p]) * a + (a * P.at[p][q] + b * P.at[q][q]) * b
  {
    var n := P.rows;
    var x := TwoEntries(n, p, a, q, b);
    var Y := Mul(Row(x), P);
    TwoEntriesTimes(P, p, a, q, b, p);
    TwoEntriesTimes(P, p, a, q, b, q);
    TwoTerms(Y.at[0], Tr(Row(x)), n, p, q, Y.at[0][p], a, Y.at[0][q], b);
  }

  lemma TwoEntriesTimes(P: Mat, p: nat, a: real, q: nat, b: real, j: nat)
    requires P.rows == P.cols && p < P.rows && q < P.rows && p != q && j < P.cols
    ensures Mul(Row(TwoEntries(P.rows, p, a, q, b)), P).at[0][j] == a * P.at[p][j] + b * P.at[q][j]
  {
    ColDotTwo(TwoEntries(P.rows, p, a, q, b), P, j, P.rows, p, q);
  }

  lemma TwoTerms(y: seq<real>, X: Mat, n: nat, p: nat, q: nat, yp: real, a: real, yq: real, b: real)
    requires |y| == X.rows == n && X.cols == 1 && p < n && q < n && p != q
    requires forall k :: 0 <= k < n && k != p && k != q ==> X.at[k][0] == 0.0
    requires y[p] == yp && y[q] == yq && X.at[p][0] == a && X.at[q][0] == b
    ensures ColDot(y, X, 0, n) == yp * a + yq * b
  {
    ColDotTwo(y, X, 0, n, p, q);
  }

  /** A symmetric matrix with a negative 2×2 principal minor is not positive semidefinite. */
  lemma NegativeMinor(P: Mat, p: nat, q: nat)
    requires Symmetric(P) && p < P.rows && q < P.rows && p != q
    requires P.at[p][p] > 0.0 && P.at[p][p] * P.at[q][q] < P.at[p][q] * P.at[p][q]
    ensures !Psd(P)
  {
    var d, e, c := P.at[p][p], P.at[q][q], P.at[p][q];
    SymmetricEntries(P);
    QuadTwoEntries(P, p, c, q, -d);
    assert P.at[q][p] == c;
    MinorNegative(d, e, c, -d, Quad(TwoEntries(P.rows, p, c, q, -d), P));
  }

  /**
   A ceiling that cuts a variance below what its correlation with a state without a floor needs
   breaks the covariance, whatever the rest of P is.
   */
  lemma CeilingBreaksPsd(P: Mat, i: nat, j: nat)
    requires Symmetric(P) && i < P.rows && j < P.rows && HasCeiling(i) && !HasFloor(j)
    requires P.at[i][i] > Ceiling(i)
    requires Ceiling(i) * P.at[j][j] < P.at[i][j] * P.at[i][j]
    ensures !Psd(Constrained(P))
  {
    ConstrainedSymmetric(P);
    NegativeMinor(Constrained(P), i, j);
  }

  /** vᵀv for a row vector v. */
  function Outer(v: seq<real>): (P: Mat)
    ensures P.rows == P.cols == |v|
  {
    Mul(Tr(Row(v)), Row(v))
  }

  lemma OuterKeeps(v: seq<real>)
    ensures Symmetric(Outer(v)) && Psd(Outer(v))
    ensures forall i, j :: 0 <= i < |v| && 0 <= j < |v| ==> Outer(v).at[i][j] == v[i] * v[j]
  {
    var V := Row(v);
    TrMul(Tr(V), V);
    TrTr(V);
    PsdDiag([1.0]);
    Ext(Diag([1.0]), Id(1));
    MulId(Tr(V));
    PsdCongruence(Tr(V), Diag([1.0]));
    OuterEntries(v);
  }

  lemma OuterEntries(v: seq<real>)
    ensures forall i, j :: 0 <= i < |v| && 0 <= j < |v| ==> Outer(v).at[i][j] == v[i] * v[j]
  {
    var V := Row(v);
    forall i, j | 0 <= i < |v| && 0 <= j < |v| ensures Outer(v).at[i][j] == v[i] * v[j] {
      ColDotOne(Tr(V).at[i], V, j, 1, 0);
    }
  }

  /** A covariance the filter's own ceiling turns into one that is not positive semidefinite. */
  lemma CeilingCounterexample()
    ensures exists P: Mat :: P.rows == P.cols == N && Symmetric(P) && Psd(P) && !Psd(Constrained(P))
  {
    var v := TwoEntries(N, 0, 1.0, 10, 2.0);
    OuterKeeps(v);
    var P := Outer(v);
    assert P.at[10][10] == v[10] * v[10] && P.at[0][0] == v[0] * v[0] && P.at[10][0] == v[10] * v[0];
    CeilingBreaksPsd(P, 10, 0);
  }

  /** The clamp keeps every covariance with these variances positive semidefinite. */
  ghost predicate ClampSafe(d: seq<real>) {
    forall P: Mat :: HasVariances(P, d) && Symmetric(P) && Psd(P) ==> Psd(Constrained(P))
  }

  predicate HasVariances(P: Mat, d: seq<real>) {
    P.rows == P.cols == |d| && forall k :: 0 <= k < |d| ==> P.at[k][k] == d[k]
  }

  /** The variances d with nothing at i and j. */
  function Without(d: seq<real>, i: nat, j: nat): (e: seq<real>)
    ensures |e| == |d| && forall k :: 0 <= k < |d| ==> e[k] == if k == i || k == j then 0.0 else d[k]
  {
    seq(|d|, k requires 0 <= k < |d| => if k == i || k == j then 0.0 else d[k])
  }

  /** A covariance with variances d whose states i and j, with deviations a and b, are fully correlated. */
  function Correlated(d: seq<real>, i: nat, a: real, j: nat, b: real): (P: Mat)
    ensures P.rows == P.cols == |d|
  {
    Plus(Outer(TwoEntries(|d|, i, a, j, b)), 1.0, Diag(Without(d, i, j)))
  }

  lemma {:induction false} CorrelatedEntry(d: seq<real>, i: nat, a: real, j: nat, b: real, k: nat, l: nat)
    requires k < |d| && l < |d|
    ensures var v := TwoEntries(|d|, i, a, j, b);
            Correlated(d, i, a, j, b).at[k][l] == v[k] * v[l] + if k == l then Without(d, i, j)[k] else 0.0
  {
    var v := TwoEntries(|d|, i, a, j, b);
    OuterEntries(v);
    assert Outer(v).at[k][l] == v[k] * v[l];
  }

  lemma {:induction false} CorrelatedEntries(d: seq<real>, i: nat, a: real, j: nat, b: real)
    requires i < |d| && j < |d| && i != j && a * a == d[i] && b * b == d[j]
    ensures HasVariances(Correlated(d, i, a, j, b), d) && Correlated(d, i, a, j, b).at[i][j] == a * b
  {
    forall k | 0 <= k < |d| ensures Correlated(d, i, a, j, b).at[k][k] == d[k] {
      CorrelatedEntry(d, i, a, j, b, k, k);
    }
    CorrelatedEntry(d, i, a, j, b, i, j);
  }

  lemma CorrelatedIsCovariance(d: seq<real>, i: nat, a: real, j: nat, b: real)
    requires i < |d| && j < |d| && i != j && forall k :: 0 <= k < |d| ==> d[k] >= 0.0
    ensures Symmetric(Correlated(d, i, a, j, b)) && Psd(Correlated(d, i, a, j, b))
  {
    var v := TwoEntries(|d|, i, a, j, b);
    OuterKeeps(v);
    TrDiag(Without(d, i, j));
    PsdDiag(Without(d, i, j));
    SymmetricPlus(Outer(v), 1.0, Diag(Without(d, i, j)));
    PsdPlus(Outer(v), Diag(Without(d, i, j)));
  }

  lemma CeilingCuts(c: real, d: real, e: real, a: real, b: real, p: real)
    requires 0.0 <= c < d && e > 0.0 && a * a == d && b * b == e && p == a * b
    ensures c * e < p * p
  {
    assert p * p == d * e by { FourFactors(a, b); }
    assert d * e - c * e == (d - c) * e;
  }

  lemma FourFactors(a: real, b: real)
    ensures (a * b) * (a * b) == (a * a) * (b * b)
  {
  }

  /**
   As long as some position or velocity variance is positive, the clamp keeps every covariance with
   the given variances exactly when none of them is above its ceiling.
   */
  lemma ClampSafeExactly(sqrt: real -> real, d: seq<real>, j: nat)
    requires IsSqrt(sqrt) && |d| == N && forall k :: 0 <= k < N ==> d[k] >= 0.0
    requires j < N && !HasFloor(j) && d[j] > 0.0
    ensures ClampSafe(d) <==> forall i :: 0 <= i < N && HasCeiling(i) ==> d[i] <= Ceiling(i)
  {
    if i :| 0 <= i < N && HasCeiling(i) && d[i] > Ceiling(i) {
      CeilingUnsafe(sqrt(d[i]), sqrt(d[j]), d, i, j);
    } else {
      ClampSafeBelow(d);
    }
  }

  lemma ClampSafeBelow(d: seq<real>)
    requires |d| == N && forall i :: 0 <= i < N && HasCeiling(i) ==> d[i] <= Ceiling(i)
    ensures ClampSafe(d)
  {
    forall P: Mat | HasVariances(P, d) && Symmetric(P) && Psd(P) ensures Psd(Constrained(P)) {
      FloorsKeepPsd(P);
    }
  }

  lemma CeilingUnsafe(a: real, b: real, d: seq<real>, i: nat, j: nat)
    requires |d| == N && i < N && j < N && forall k :: 0 <= k < N ==> d[k] >= 0.0
    requires HasCeiling(i) && d[i] > Ceiling(i) && !HasFloor(j) && d[j] > 0.0
    requires a * a == d[i] && b * b == d[j]
    ensures !ClampSafe(d)
  {
    var P := Correlated(d, i, a, j, b);
    CorrelatedEntries(d, i, a, j, b);
    CorrelatedIsCovariance(d, i, a, j, b);
    CeilingCuts(Ceiling(i), d[i], d[j], a, b, P.at[i][j]);
    CeilingBreaksPsd(P, i, j);
  }

  // ---- runs ----

  /** One covariance step. A skipped update is one whose innovation covariance had no pivot. */
  datatype Event =
    | Prediction(F: Mat, Q: Mat)
    | Measurement(H: Mat, R: seq<real>, K: Mat)
    | SkippedMeasurement

  ghost predicate Admissible(e: Event) {
    match e
    case Prediction(F, Q) => F.rows == F.cols == Q.rows == Q.cols == N && Symmetric(Q) && Psd(Q)
    case Measurement(H, R, K) =>
      && H.cols == K.rows == N && |R| == H.rows == K.cols
      && forall k :: 0 <= k < |R| ==> R[k] >= 0.0
    case SkippedMeasurement => true
  }

  /** The covariance of a measurement before the variances are clamped. */
  function BeforeClamp(P: Mat, H: Mat, R: seq<real>, K: Mat): (P': Mat)
    requires Dims(P, H, R) && K.rows == P.rows && K.cols == H.rows
    ensures P'.rows == P'.cols == P.rows
  {
    Averaged(Joseph(P, H, R, K))
  }

  ghost function After(P: Mat, e: Event): (P': Mat)
    requires P.rows == P.cols == N && Admissible(e)
    ensures P'.rows == P'.cols == N
  {
    match e
    case Prediction(F, Q) => Predicted(F, P, Q)
    case Measurement(H, R, K) => Constrained(BeforeClamp(P, H, R, K))
    case SkippedMeasurement => P
  }

  ghost predicate Clamped(P: Mat, e: Event)
    requires P.rows == P.cols == N && Admissible(e)
  {
    e.Measurement? && CeilingFires(BeforeClamp(P, e.H, e.R, e.K))
  }

  ghost function Run(P: Mat, es: seq<Event>): (P': Mat)
    requires P.rows == P.cols == N && forall k :: 0 <= k < |es| ==> Admissible(es[k])
    ensures P'.rows == P'.cols == N
  {
    if |es| == 0 then P else After(Run(P, es[..|es| - 1]), es[|es| - 1])
  }

  /** A measurement keeps symmetry, and without a ceiling positive semidefiniteness. */
  lemma MeasurementKeeps(P: Mat, H: Mat, R: seq<real>, K: Mat)
    requires Dims(P, H, R) && Symmetric(P) && K.rows == P.rows && K.cols == H.rows
    ensures Symmetric(Constrained(BeforeClamp(P, H, R, K)))
    ensures Psd(P) && (forall k :: 0 <= k < |R| ==> R[k] >= 0.0) && !CeilingFires(BeforeClamp(P, H, R, K))
            ==> Psd(Constrained(BeforeClamp(P, H, R, K)))
  {
    JosephKeeps(P, H, R, K);
    AveragedSymmetric(Joseph(P, H, R, K));
    ConstrainedSymmetric(BeforeClamp(P, H, R, K));
    if Psd(P) && (forall k :: 0 <= k < |R| ==> R[k] >= 0.0) && !CeilingFires(BeforeClamp(P, H, R, K)) {
      FloorsKeepPsd(BeforeClamp(P, H, R, K));
    }
  }

  lemma StepKeeps(P: Mat, e: Event)
    requires P.rows == P.cols == N && Admissible(e) && Symmetric(P)
    ensures Symmetric(After(P, e))
    ensures Psd(P) && !Clamped(P, e) ==> Psd(After(P, e))
  {
    match e
    case Prediction(F, Q) => PredictedKeeps(F, P, Q);
    case Measurement(H, R, K) => MeasurementKeeps(P, H, R, K);
    case SkippedMeasurement =>
  }

  /**
   Over every run, in any order and with any gains, the covariance stays symmetric, and it stays
   positive semidefinite as long as no ceiling fires.
   */
  lemma {:induction false} RunKeeps(P: Mat, es: seq<Event>)
    requires P.rows == P.cols == N && forall k :: 0 <= k < |es| ==> Admissible(es[k])
    requires Symmetric(P)
    ensures Symmetric(Run(P, es))
    ensures Psd(P) && (forall k :: 0 <= k < |es| ==> !Clamped(Run(P, es[..k]), es[k])) ==> Psd(Run(P, es))
  {
    if |es| > 0 {
      var front := es[..|es| - 1];
      RunKeeps(P, front);
      StepKeeps(Run(P, front), es[|es| - 1]);
      assert forall k :: 0 <= k < |front| ==> front[k] == es[k] && front[..k] == es[..k];
    }
  }

  // ---- the initial covariance and process noise ----

  function InitialVariance(i: nat): real {
    if i <= 2 then 1.0 else if i <= 5 then 0.5 else if i <= 9 then 0.1 else if i <= 12 then 0.01 else 0.0001
  }

  function ProcessVariance(i: nat): real {
    if i <= 2 then 0.0001 else if i <= 5 then 0.001 else if i <= 9 then 0.00001
    else if i <= 12 then 0.0000001 else 0.000000001
  }

  /** Position, velocity, attitude, and the two biases. */
  predicate SameGroup(i: nat, j: nat) {
    (i < 3 <==> j < 3) && (i < 6 <==> j < 6) && (i < 10 <==> j < 10) && (i < 13 <==> j < 13)
  }

  /** No direction is preferred: the components of one vector share every variance and every limit. */
  lemma {:induction false} GroupsAlike(i: nat, j: nat)
    requires i < N && j < N && SameGroup(i, j)
    ensures InitialVariance(i) == InitialVariance(j) && ProcessVariance(i) == ProcessVariance(j)
    ensures (HasFloor(i) <==> HasFloor(j)) && (HasCeiling(i) <==> HasCeiling(j)) && Ceiling(i) == Ceiling(j)
  {
  }

  function P0(): (P: Mat)
    ensures P.rows == P.cols == N
  {
    Diag(seq(N, i requires 0 <= i < N => InitialVariance(i)))
  }

  function Q0(): (Q: Mat)
    ensures Q.rows == Q.cols == N
  {
    Diag(seq(N, i requires 0 <= i < N => ProcessVariance(i)))
  }

  lemma InitialCovariance()
    ensures Symmetric(P0()) && Psd(P0())
    ensures Symmetric(Q0()) && Psd(Q0())
    ensures !CeilingFires(P0())
  {
    var p, q := seq(N, i requires 0 <= i < N => InitialVariance(i)), seq(N, i requires 0 <= i < N => ProcessVariance(i));
    TrDiag(p);
    TrDiag(q);
    PsdDiag(p);
    PsdDiag(q);
  }
}
