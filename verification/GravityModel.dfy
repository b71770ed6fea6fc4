/** The accelerometer as a measurement of gravity: its prediction, linearisation and gate. */
module GravityModel {
  import opened Matrices
  import opened MatrixLoops
  import opened Covariance
  import opened FilterRuns
  import opened Hamilton
  import opened Quaternions

  const GRAVITY := 9.80665

  // ---- the predicted reading ----

  function Reaction(down: real): real {
    -down * GRAVITY
  }

  /** The last row of the attitude matrix: down, seen in the body. */
  function DownX(w: real, x: real, y: real, z: real): real {
    2.0 * (x * z - w * y)
  }

  function DownY(w: real, x: real, y: real, z: real): real {
    2.0 * (y * z + w * x)
  }

  function DownZ(x: real, y: real): real {
    1.0 - 2.0 * (x * x + y * y)
  }

  lemma {:induction false} DownIsLastRow(q: Quat, R: Mat3)
    requires R == Rotation(q)
    ensures DownX(q.w, q.x, q.y, q.z) == R.r20 && DownY(q.w, q.x, q.y, q.z) == R.r21 && DownZ(q.x, q.y) == R.r22
  {
  }

  function First(w: real, x: real, y: real, z: real): real {
    Reaction(DownX(w, x, y, z))
  }

  function Second(w: real, x: real, y: real, z: real): real {
    Reaction(DownY(w, x, y, z))
  }

  function Third(x: real, y: real): real {
    Reaction(DownZ(x, y))
  }

  /** The reading at rest, less the bias: gravity's reaction in the body. */
  function AtRest(q: Quat, r: nat): real {
    if r == 0 then First(q.w, q.x, q.y, q.z) else if r == 1 then Second(q.w, q.x, q.y, q.z) else Third(q.x, q.y)
  }

  function Attitude(x: seq<real>): Quat
    requires |x| == N
  {
    Quat(x[6], x[7], x[8], x[9])
  }

  function ReadingOf(x: seq<real>, r: nat): real
    requires |x| == N && r < 3
  {
    AtRest(Attitude(x), r) + x[10 + r]
  }

  // ---- its linearisation ----

  function TimesG(c: real, v: real): real {
    c * v * GRAVITY
  }

  function GravityBlock(q: Quat): (b: seq<seq<real>>)
    ensures |b| == 3 && forall r :: 0 <= r < 3 ==> |b[r]| == 4
  {
    [[TimesG(2.0, q.y), TimesG(-2.0, q.z), TimesG(2.0, q.w), TimesG(-2.0, q.x)],
     [TimesG(-2.0, q.x), TimesG(-2.0, q.w), TimesG(-2.0, q.z), TimesG(-2.0, q.y)],
     [0.0, TimesG(4.0, q.x), TimesG(4.0, q.y), 0.0]]
  }

  function GravityEntry(q: Quat, r: nat, c: nat): real
    requires r < 3
  {
    if 6 <= c < 10 then GravityBlock(q)[r][c - 6] else if c == 10 + r then 1.0 else 0.0
  }

  function GravityH(q: Quat): (H: Mat)
    ensures H.rows == 3 && H.cols == N
    ensures forall r, c :: 0 <= r < 3 && 0 <= c < N ==> H.at[r][c] == GravityEntry(q, r, c)
  {
    Matrix(3, N, seq(3, r requires 0 <= r < 3 => seq(N, c requires 0 <= c < N => GravityEntry(q, r, c))))
  }

  /** The difference of two values h to either side is 2h times e. */
  predicate Central(above: real, below: real, h: real, e: real) {
    above - below == 2.0 * h * e
  }

  lemma {:induction false} FirstSlopes(w: real, x: real, y: real, z: real, h: real, k: real)
    requires k == -h
    ensures Central(First(w + h, x, y, z), First(w + k, x, y, z), h, TimesG(2.0, y))
    ensures Central(First(w, x + h, y, z), First(w, x + k, y, z), h, TimesG(-2.0, z))
    ensures Central(First(w, x, y + h, z), First(w, x, y + k, z), h, TimesG(2.0, w))
    ensures Central(First(w, x, y, z + h), First(w, x, y, z + k), h, TimesG(-2.0, x))
  {
  }

  lemma {:induction false} SecondSlopes(w: real, x: real, y: real, z: real, h: real, k: real)
    requires k == -h
    ensures Central(Second(w + h, x, y, z), Second(w + k, x, y, z), h, TimesG(-2.0, x))
    ensures Central(Second(w, x + h, y, z), Second(w, x + k, y, z), h, TimesG(-2.0, w))
    ensures Central(Second(w, x, y + h, z), Second(w, x, y + k, z), h, TimesG(-2.0, z))
    ensures Central(Second(w, x, y, z + h), Second(w, x, y, z + k), h, TimesG(-2.0, y))
  {
  }

  lemma {:induction false} ThirdSlopes(x: real, y: real, h: real, k: real)
    requires k == -h
    ensures Central(Third(x + h, y), Third(x + k, y), h, TimesG(4.0, x))
    ensures Central(Third(x, y + h), Third(x, y + k), h, TimesG(4.0, y))
    ensures Central(Third(x, y), Third(x, y), h, 0.0)
  {
  }

  /** q with h added to component i. */
  function Shifted(q: Quat, i: nat, h: real): Quat {
    if i == 0 then q.(w := q.w + h) else if i == 1 then q.(x := q.x + h)
    else if i == 2 then q.(y := q.y + h) else q.(z := q.z + h)
  }

  lemma {:induction false} BlockSlopes(q: Quat, r: nat, i: nat, h: real, k: real, e: real)
    requires r < 3 && i < 4 && k == -h && e == GravityBlock(q)[r][i]
    ensures Central(AtRest(Shifted(q, i, h), r), AtRest(Shifted(q, i, k), r), h, e)
  {
    match r
    case 0 => FirstSlopes(q.w, q.x, q.y, q.z, h, k);
    case 1 => SecondSlopes(q.w, q.x, q.y, q.z, h, k);
    case _ => ThirdSlopes(q.x, q.y, h, k);
  }

  /** The state with h added to component c. */
  function Moved(x: seq<real>, c: nat, h: real): (x': seq<real>)
    requires c < |x|
    ensures |x'| == |x|
  {
    x[c := x[c] + h]
  }

  lemma {:induction false} ReadingMoves(x: seq<real>, r: nat, c: nat, h: real)
    requires |x| == N && r < 3 && c < N
    ensures ReadingOf(Moved(x, c, h), r)
         == AtRest(if 6 <= c < 10 then Shifted(Attitude(x), c - 6, h) else Attitude(x), r)
            + if c == 10 + r then x[10 + r] + h else x[10 + r]
  {
  }

  /**
   Every entry of the linearisation is the partial derivative of the predicted reading by that state: the
   difference over ±h is 2h times the entry, for every h.
   */
  lemma {:induction false} GravityPartials(x: seq<real>, r: nat, c: nat, h: real, k: real)
    requires |x| == N && r < 3 && c < N && k == -h
    ensures Central(ReadingOf(Moved(x, c, h), r), ReadingOf(Moved(x, c, k), r), h, GravityH(Attitude(x)).at[r][c])
  {
    ReadingMoves(x, r, c, h);
    ReadingMoves(x, r, c, k);
    if 6 <= c < 10 {
      BlockSlopes(Attitude(x), r, c - 6, h, k, GravityBlock(Attitude(x))[r][c - 6]);
    }
  }

  // ---- the gate ----

  /** The terms of a row times a column, over the columns nz only. */
  function Picked(u: seq<real>, B: Mat, j: nat, nz: seq<nat>, n: nat): real
    requires |u| == B.rows && j < B.cols && n <= |nz| && forall a :: 0 <= a < |nz| ==> nz[a] < |u|
  {
    if n == 0 then 0.0 else Picked(u, B, j, nz, n - 1) + u[nz[n - 1]] * B.at[nz[n - 1]][j]
  }

  predicate Ascending(nz: seq<nat>, m: nat) {
    && (forall a :: 0 <= a < |nz| ==> nz[a] < m)
    && forall a, b :: 0 <= a < b < |nz| ==> nz[a] < nz[b]
  }

  /** The terms outside nz are zero. */
  predicate Vanishes(u: seq<real>, B: Mat, j: nat, nz: seq<nat>)
    requires |u| == B.rows && j < B.cols
  {
    forall k :: 0 <= k < |u| && k !in nz ==> u[k] == 0.0 || B.at[k][j] == 0.0
  }

  lemma {:induction false} ColDotSkips(u: seq<real>, B: Mat, j: nat, lo: nat, n: nat)
    requires lo <= n <= |u| == B.rows && j < B.cols
    requires forall k :: lo <= k < n ==> u[k] == 0.0 || B.at[k][j] == 0.0
    ensures ColDot(u, B, j, n) == ColDot(u, B, j, lo)
  {
    if lo < n { ColDotSkips(u, B, j, lo, n - 1); }
  }

  /** Between the columns before n and those from n on there is nothing. */
  lemma {:induction false} GapVanishes(u: seq<real>, B: Mat, j: nat, nz: seq<nat>, n: nat, lo: nat, m: nat)
    requires |u| == B.rows && j < B.cols && Ascending(nz, |u|) && n <= |nz| && Vanishes(u, B, j, nz)
    requires lo <= m <= |u| && (n < |nz| ==> m <= nz[n]) && lo == (if n == 0 then 0 else nz[n - 1] + 1)
    ensures ColDot(u, B, j, m) == ColDot(u, B, j, lo)
  {
    forall k | lo <= k < m ensures u[k] == 0.0 || B.at[k][j] == 0.0 {
      assert forall a :: 0 <= a < |nz| ==> nz[a] != k;
    }
    ColDotSkips(u, B, j, lo, m);
  }

  lemma {:induction false} PickedNext(u: seq<real>, B: Mat, j: nat, nz: seq<nat>, n: nat, p: nat)
    requires |u| == B.rows && j < B.cols && n < |nz| && forall a :: 0 <= a < |nz| ==> nz[a] < |u|
    requires p == nz[n]
    ensures Picked(u, B, j, nz, n + 1) - Picked(u, B, j, nz, n) == ColDot(u, B, j, p + 1) - ColDot(u, B, j, p)
  {
  }

  /** A product whose other terms vanish is the sum over those columns. */
  lemma {:induction false} PickedIsAll(u: seq<real>, B: Mat, j: nat, nz: seq<nat>, n: nat, m: nat)
    requires |u| == B.rows && j < B.cols && Ascending(nz, |u|) && n <= |nz| && Vanishes(u, B, j, nz)
    requires (n > 0 ==> nz[n - 1] < m) && (n < |nz| ==> m <= nz[n]) && m <= |u|
    ensures Picked(u, B, j, nz, n) == ColDot(u, B, j, m)
  {
    if n == 0 {
      GapVanishes(u, B, j, nz, 0, 0, m);
    } else {
      var p := nz[n - 1];
      PickedIsAll(u, B, j, nz, n - 1, p);
      PickedNext(u, B, j, nz, n - 1, p);
      GapVanishes(u, B, j, nz, n, p + 1, m);
    }
  }

  lemma {:induction false} PickedRow(u: seq<real>, B: Mat, j: nat, nz: seq<nat>)
    requires |u| == B.rows && j < B.cols && Ascending(nz, |u|) && Vanishes(u, B, j, nz)
    ensures Picked(u, B, j, nz, |nz|) == ColDot(u, B, j, |u|)
  {
    PickedIsAll(u, B, j, nz, |nz|, |u|);
  }

  /** Column row of B is row row of H, which is zero outside nz. */
  ghost predicate SparseRow(H: array2<real>, B: Mat, row: nat, nz: seq<nat>)
    reads H
  {
    && row < H.Length0 && B.rows == H.Length1 && row < B.cols && Ascending(nz, H.Length1)
    && forall k :: 0 <= k < H.Length1 ==> B.at[k][row] == H[row, k] && (k !in nz ==> H[row, k] == 0.0)
  }

  /** Column row of W is that of P·B. */
  ghost predicate ProductColumn(P: array2<real>, B: Mat, W: Mat, row: nat)
    reads P
  {
    && P.Length0 == P.Length1 == B.rows == W.rows && row < B.cols && row < W.cols
    && forall i :: 0 <= i < W.rows ==> W.at[i][row] == ColDot(Of(P).at[i], B, row, B.rows)
  }

  /** One entry of P·Hᵀ, by a sum over the nonzero columns of H's row. */
  method SparseEntry(P: array2<real>, H: array2<real>, ghost B: Mat, ghost W: Mat, row: nat, nz: seq<nat>, i: nat)
    returns (ph: real)
    requires SparseRow(H, B, row, nz) && ProductColumn(P, B, W, row) && i < W.rows
    ensures ph == W.at[i][row]
  {
    ghost var u := Of(P).at[i];
    ph := 0.0;
    for b := 0 to |nz|
      invariant ph == Picked(u, B, row, nz, b)
    {
      ph := ph + P[i, nz[b]] * H[row, nz[b]];
    }
    PickedRow(u, B, row, nz);
  }

  /** One term of the sum over a row, with its own sum inside. */
  method SparseTerm(P: array2<real>, H: array2<real>, ghost B: Mat, ghost W: Mat, row: nat, nz: seq<nat>, a: nat)
    returns (t: real)
    requires SparseRow(H, B, row, nz) && ProductColumn(P, B, W, row) && a < |nz|
    ensures t == Picked(Of(H).at[row], W, row, nz, a + 1) - Picked(Of(H).at[row], W, row, nz, a)
  {
    var ph := SparseEntry(P, H, B, W, row, nz, nz[a]);
    t := H[row, nz[a]] * ph;
  }

  lemma {:induction false} PickedSparse(H: array2<real>, B: Mat, W: Mat, row: nat, nz: seq<nat>)
    requires SparseRow(H, B, row, nz) && W.rows == H.Length1 && row < W.cols
    ensures Picked(Of(H).at[row], W, row, nz, |nz|) == ColDot(Of(H).at[row], W, row, W.rows)
  {
    PickedRow(Of(H).at[row], W, row, nz);
  }

  /** A row's innovation variance, by sums over the nonzero columns of the row; W stands for P·Hᵀ. */
  method SparseSum(P: array2<real>, H: array2<real>, ghost B: Mat, ghost W: Mat, row: nat, nz: seq<nat>, noise: real)
    returns (s: real)
    requires SparseRow(H, B, row, nz) && ProductColumn(P, B, W, row)
    ensures s == noise + ColDot(Of(H).at[row], W, row, W.rows)
  {
    ghost var h := Of(H).at[row];
    s := noise;
    for a := 0 to |nz|
      invariant s == noise + Picked(h, W, row, nz, a)
    {
      var t := SparseTerm(P, H, B, W, row, nz, a);
      s := s + t;
    }
    PickedSparse(H, B, W, row, nz);
  }

  function NonZero(row: nat): (nz: seq<nat>)
    requires row < 3
    ensures Ascending(nz, N)
  {
    [6, 7, 8, 9, 10 + row]
  }

  lemma {:induction false} OtherColumnsZero(q: Quat, row: nat, k: nat)
    requires row < 3 && k < N && k !in NonZero(row)
    ensures GravityH(q).at[row][k] == 0.0
  {
  }

  /** The sparse sum of a row is its entry on the diagonal of the innovation covariance. */
  method RowVariance(P: array2<real>, H: array2<real>, ghost q: Quat, ghost R: seq<real>, row: nat, noise: real)
    returns (s: real)
    requires P.Length0 == P.Length1 == H.Length1 == N && H.Length0 == |R| == 3 && Of(H) == GravityH(q)
    requires row < 3 && R[row] == noise
    ensures s == Innovation(Of(P), Of(H), R).at[row][row]
  {
    ghost var B, W := Tr(Of(H)), Mul(Of(P), Tr(Of(H)));
    forall k | 0 <= k < N && k !in NonZero(row) ensures H[row, k] == 0.0 {
      OtherColumnsZero(q, row, k);
      assert H[row, k] == Of(H).at[row][k];
    }
    s := SparseSum(P, H, B, W, row, NonZero(row), noise);
  }

  function Total(S: Mat): real
    requires S.rows == S.cols == 3
  {
    S.at[0][0] + S.at[1][1] + S.at[2][2]
  }

  function Size(innov: seq<real>): real
    requires |innov| == 3
  {
    innov[0] * innov[0] + innov[1] * innov[1] + innov[2] * innov[2]
  }

  const DEGENERATE := 0.0000000001

  /** The joint gate at five standard deviations. */
  predicate Passes(S: Mat, innov: seq<real>)
    requires S.rows == S.cols == |innov| == 3
  {
    Total(S) >= DEGENERATE && Size(innov) <= Total(S) * 25.0
  }

  function Noise3(noise: real): (R: seq<real>)
    ensures |R| == 3 && forall k :: 0 <= k < 3 ==> R[k] == noise
  {
    [noise, noise, noise]
  }

  method GravityGate(P: array2<real>, H: array2<real>, ghost q: Quat, noise: real, innov: seq<real>) returns (open: bool)
    requires P.Length0 == P.Length1 == H.Length1 == N && H.Length0 == |innov| == 3 && Of(H) == GravityH(q)
    ensures open <==> Passes(Innovation(Of(P), Of(H), Noise3(noise)), innov)
  {
    var s0 := RowVariance(P, H, q, Noise3(noise), 0, noise);
    var s1 := RowVariance(P, H, q, Noise3(noise), 1, noise);
    var s2 := RowVariance(P, H, q, Noise3(noise), 2, noise);
    var total := s0 + s1 + s2;
    open := !(total < DEGENERATE || Size(innov) > total * 25.0);
  }

  method GravityArray(q: Quat) returns (H: array2<real>)
    ensures fresh(H) && H.Length0 == 3 && H.Length1 == N && Of(H) == GravityH(q)
  {
    H := new real[3, N]((r, c) => 0.0);
    forall r, c | 0 <= r < 3 && 0 <= c < N {
      H[r, c] := GravityEntry(q, r, c);
    }
    Ext(Of(H), GravityH(q));
  }

  lemma {:induction false} DiagonalNonneg(X: Mat, p: nat, q: nat)
    requires Psd(X) && p < X.rows && q < X.rows && p != q
    ensures X.at[p][p] >= 0.0
  {
    QuadTwoEntries(X, p, 1.0, q, 0.0);
    assert Quad(TwoEntries(X.rows, p, 1.0, q, 0.0), X) >= 0.0;
  }

  /** Each row's innovation variance is at least the noise. */
  lemma {:induction false} VarianceFloor(P: Mat, H: Mat, noise: real, row: nat)
    requires Dims(P, H, Noise3(noise)) && Psd(P) && row < 3
    ensures Innovation(P, H, Noise3(noise)).at[row][row] >= noise
  {
    var X := Mul(H, Mul(P, Tr(H)));
    PsdCongruence(H, P);
    MulAssoc(H, P, Tr(H));
    DiagonalNonneg(X, row, if row == 0 then 1 else 0);
  }

  /** For a covariance the test for a degenerate one never fires: the gate is about the innovation's size alone. */
  lemma {:induction false} GateIsSize(P: Mat, H: Mat, noise: real, innov: seq<real>)
    requires Dims(P, H, Noise3(noise)) && Psd(P) && 3.0 * noise >= DEGENERATE && |innov| == 3
    ensures var S := Innovation(P, H, Noise3(noise)); Passes(S, innov) <==> Size(innov) <= Total(S) * 25.0
  {
    VarianceFloor(P, H, noise, 0);
    VarianceFloor(P, H, noise, 1);
    VarianceFloor(P, H, noise, 2);
  }

  // ---- the vibration filter ----

  predicate OutOfRange(norm: real) {
    norm > 3.0 * GRAVITY || norm < 0.1
  }

  function Vibration(prev: real, norm: real): real {
    0.02 * ((norm - GRAVITY) * (norm - GRAVITY)) + (1.0 - 0.02) * prev
  }

  function Noise(rVar: real, vibration: real): real {
    rVar + 0.25 * vibration
  }
}
