/**
 Closed-form kinematics of the five-bar leg: which poses the inverse accepts, when the forward map
 undoes it, and what the symmetric linkage promises.
 */
module FiveBar {
  import opened Basics
  import opened RealFunctions
  import opened PlaneGeometry

  /** Marks the arguments at which a law of the library is wanted. */
  predicate Used(x: real, y: real) {
    true
  }

  /** The C library as parameters, known only by defining equations. */
  datatype Libm = Libm(sin: real -> real, cos: real -> real, atan2: (real, real) -> real, sqrt: real -> real, pi: real) {
    ghost predicate Exact() {
      && pi > 0.0
      && sin(0.0) == 0.0 && cos(0.0) == 1.0
      && (forall x: real, y: real {:trigger Used(x, y)} :: x >= 0.0 ==> sqrt(x) >= 0.0 && sqrt(x) * sqrt(x) == x)
      && (forall x: real, y: real {:trigger Used(x, y)} :: sin(x) * sin(x) + cos(x) * cos(x) == 1.0)
      && (forall x: real, y: real {:trigger Used(x, y)} ::
            -pi < x <= pi && -pi < y <= pi && sin(x) == sin(y) && cos(x) == cos(y) ==> x == y)
      && (forall x: real, y: real {:trigger Used(x, y)} ::
            && -pi < atan2(x, y) <= pi
            && sqrt(y * y + x * x) * sin(atan2(x, y)) == x
            && sqrt(y * y + x * x) * cos(atan2(x, y)) == y)
    }
  }

  lemma SquareRoot(m: Libm, x: real, r: real)
    requires m.Exact() && x >= 0.0 && r == m.sqrt(x)
    ensures r >= 0.0 && r * r == x
  {
    assert Used(x, x);
  }

  lemma UnitCircle(m: Libm, a: real, s: real, c: real)
    requires m.Exact() && s == m.sin(a) && c == m.cos(a)
    ensures s * s + c * c == 1.0
  {
    assert Used(a, a);
  }

  lemma SameAngle(m: Libm, a: real, b: real)
    requires m.Exact() && -m.pi < a <= m.pi && -m.pi < b <= m.pi
    requires m.sin(a) == m.sin(b) && m.cos(a) == m.cos(b)
    ensures a == b
  {
    assert Used(a, b);
  }

  lemma ArcTangent(m: Libm, y: real, x: real, r: real, a: real)
    requires m.Exact() && r >= 0.0 && r * r == x * x + y * y && a == m.atan2(y, x)
    ensures -m.pi < a <= m.pi && r * m.sin(a) == y && r * m.cos(a) == x
  {
    assert Used(y, x);
    var z := x * x + y * y;
    SquareNonneg(r);
    SquareRoot(m, z, m.sqrt(z));
    SquareUnique(r, m.sqrt(z));
  }

  datatype Vec = Vec(x: real, y: real)
  datatype Params = Params(l1: real, l2: real, l3: real, l4: real, l5: real)
  datatype Pose = Pose(L0: real, thL: real)
  datatype Angles = Angles(phi1: real, phi4: real)

  const LEG_PARAMS := Params(0.130, 0.220, 0.220, 0.130, 0.100)

  function Plus(a: Vec, b: Vec): Vec {
    Vec(a.x + b.x, a.y + b.y)
  }

  function Minus(a: Vec, b: Vec): Vec {
    Vec(a.x - b.x, a.y - b.y)
  }

  function Times(s: real, v: Vec): Vec {
    Vec(s * v.x, s * v.y)
  }

  function SquaredNorm(v: Vec): real {
    v.x * v.x + v.y * v.y
  }

  function Norm(m: Libm, v: Vec): real {
    m.sqrt(SquaredNorm(v))
  }

  function Max(x: real, y: real): real {
    if x < y then y else x
  }

  /** The guard shared by both directions. */
  predicate OutOfReach(d: real, r: real, s: real) {
    d > r + s || d < Abs(r - s) || d == 0.0
  }

  /** Distance from the first centre to the common chord. */
  function ChordAt(d: real, r: real, s: real): real
    requires d != 0.0
  {
    (r * r - s * s + d * d) / (2.0 * d)
  }

  function ClampedSquare(r: real, a: real): real {
    Max(r * r - a * a, 0.0)
  }

  function HalfChord(m: Libm, d: real, r: real, s: real): real
    requires d != 0.0
  {
    m.sqrt(ClampedSquare(r, ChordAt(d, r, s)))
  }

  function CircInt(m: Libm, P1: Vec, r1: real, P2: Vec, r2: real, pickLeft: bool): Option<Vec> {
    var dv := Minus(P2, P1);
    var d := Norm(m, dv);
    if OutOfReach(d, r1, r2) then None else
      var a := ChordAt(d, r1, r2);
      var h := HalfChord(m, d, r1, r2);
      Some(Picked(P1, Times(1.0 / d, dv), a, h, pickLeft))
  }

  /** The rear or the front of the two intersections. */
  function Picked(P1: Vec, U: Vec, a: real, h: real, pickLeft: bool): Vec {
    var N := Vec(-U.y, U.x);
    var S1 := Plus(Plus(P1, Times(a, U)), Times(h, N));
    var S2 := Minus(Plus(P1, Times(a, U)), Times(h, N));
    if pickLeft then if S1.x < S2.x then S1 else S2
    else if S1.x > S2.x then S1 else S2
  }

  function RearHip(p: Params): Vec {
    Vec(-p.l5 / 2.0, 0.0)
  }

  function FrontHip(p: Params): Vec {
    Vec(p.l5 / 2.0, 0.0)
  }

  function RearKnee(m: Libm, p: Params, phi1: real): Vec {
    Minus(RearHip(p), Vec(p.l1 * m.cos(phi1), -p.l1 * m.sin(phi1)))
  }

  function FrontKnee(m: Libm, p: Params, phi4: real): Vec {
    Plus(FrontHip(p), Vec(p.l4 * m.cos(phi4), p.l4 * m.sin(phi4)))
  }

  /** The forward map from the knees: the lower of the two intersections. */
  function LowerFoot(m: Libm, p: Params, B: Vec, D: Vec): Option<Vec> {
    var BD := Minus(D, B);
    var d := Norm(m, BD);
    if OutOfReach(d, p.l2, p.l3) then None else
      var a := ChordAt(d, p.l2, p.l3);
      var h := HalfChord(m, d, p.l2, p.l3);
      Some(Lower(Plus(B, Times(a / d, BD)), Times(1.0 / d, Vec(BD.y, -BD.x)), h))
  }

  function Lower(Pm: Vec, n: Vec, h: real): Vec {
    var C1 := Plus(Pm, Times(h, n));
    var C2 := Minus(Pm, Times(h, n));
    if C1.y < C2.y then C1 else C2
  }

  function PoseOf(m: Libm, C: Vec): Pose {
    Pose(Norm(m, C), m.atan2(C.x, -C.y))
  }

  function FootOf(m: Libm, pose: Pose): Vec {
    Vec(pose.L0 * m.sin(pose.thL), -pose.L0 * m.cos(pose.thL))
  }

  function Fk(m: Libm, p: Params, q: Angles): Option<Pose> {
    match LowerFoot(m, p, RearKnee(m, p, q.phi1), FrontKnee(m, p, q.phi4))
    case None => None
    case Some(C) => Some(PoseOf(m, C))
  }

  datatype Knees = Knees(B: Vec, D: Vec)

  function IkKnees(m: Libm, p: Params, C: Vec): Option<Knees> {
    match CircInt(m, RearHip(p), p.l1, C, p.l2, true)
    case None => None
    case Some(B) =>
      match CircInt(m, FrontHip(p), p.l4, C, p.l3, false)
      case None => None
      case Some(D) => Some(Knees(B, D))
  }

  function AnglesOf(m: Libm, p: Params, k: Knees): Angles {
    var A, E := RearHip(p), FrontHip(p);
    Angles(m.atan2(k.B.y - A.y, A.x - k.B.x), m.atan2(k.D.y - E.y, k.D.x - E.x))
  }

  function Ik(m: Libm, p: Params, pose: Pose): Option<Angles> {
    match IkKnees(m, p, FootOf(m, pose))
    case None => None
    case Some(k) => Some(AnglesOf(m, p, k))
  }

  // ---- the chord ----

  predicate On(v: Vec, c: Vec, r: real) {
    OnCircle(v.x, v.y, c.x, c.y, r)
  }

  lemma SumNonneg(x: real, y: real, z: real)
    requires z == x * x + y * y
    ensures z >= 0.0
  {
    SquareNonneg(x);
    SquareNonneg(y);
  }

  lemma NormSquare(m: Libm, v: Vec)
    requires m.Exact()
    ensures Norm(m, v) >= 0.0 && Norm(m, v) * Norm(m, v) == v.x * v.x + v.y * v.y
  {
    SumNonneg(v.x, v.y, SquaredNorm(v));
    SquareRoot(m, SquaredNorm(v), Norm(m, v));
  }

  lemma ChordEquation(d: real, r: real, s: real, a: real)
    requires d > 0.0 && a == ChordAt(d, r, s)
    ensures 2.0 * d * a == r * r - s * s + d * d
  {
  }

  /** Over the reals the clamp under the square root never acts. */
  lemma ClampIdle(m: Libm, d: real, r: real, s: real, a: real, h: real)
    requires m.Exact() && d >= 0.0 && !OutOfReach(d, r, s)
    requires a == ChordAt(d, r, s) && h == HalfChord(m, d, r, s)
    ensures r * r - a * a >= 0.0 && h >= 0.0 && h * h == r * r - a * a
  {
    ChordEquation(d, r, s, a);
    InsideCircle(r, s, d, a);
    SquareRoot(m, ClampedSquare(r, a), h);
  }

  /** Unit vector from one centre to the other. */
  lemma Direction(m: Libm, v: Vec)
    requires m.Exact() && Norm(m, v) != 0.0
    ensures Norm(m, v) > 0.0
    ensures var d, u := Norm(m, v), Times(1.0 / Norm(m, v), v);
            d * u.x == v.x && d * u.y == v.y && u.x * u.x + u.y * u.y == 1.0
  {
    NormSquare(m, v);
    var d, u := Norm(m, v), Times(1.0 / Norm(m, v), v);
    Quotient(d, v.x, u.x);
    Quotient(d, v.y, u.y);
    UnitDirection(d, v.x, v.y, u.x, u.y);
  }

  /** The point a along the direction u from c and q across it, to the left. */
  function At(c: Vec, u: Vec, a: real, q: real): Vec {
    Vec(c.x + a * u.x - q * u.y, c.y + a * u.y + q * u.x)
  }

  lemma LeftCandidate(c: Vec, u: Vec, a: real, h: real)
    ensures Plus(Plus(c, Times(a, u)), Times(h, Vec(-u.y, u.x))) == At(c, u, a, h)
  {
    NegatedFactor(h, u.y);
    assert Times(h, Vec(-u.y, u.x)) == Vec(-(h * u.y), h * u.x);
  }

  lemma RightCandidate(c: Vec, u: Vec, a: real, h: real)
    ensures Minus(Plus(c, Times(a, u)), Times(h, Vec(-u.y, u.x))) == At(c, u, a, -h)
  {
    NegatedFactor(h, u.y);
    NegatedFactor(u.y, h);
    NegatedFactor(u.x, h);
    assert Times(h, Vec(-u.y, u.x)) == Vec(-(h * u.y), h * u.x);
  }

  lemma CandidateOrder(c: Vec, u: Vec, a: real, h: real)
    ensures At(c, u, a, h).x < At(c, u, a, -h).x <==> h * u.y > 0.0
    ensures At(c, u, a, h).x > At(c, u, a, -h).x <==> h * u.y < 0.0
  {
    NegatedFactor(u.y, h);
  }

  /** What the knee choice amounts to. */
  lemma PickedAt(c: Vec, u: Vec, a: real, h: real, left: bool)
    ensures Picked(c, u, a, h, left)
         == At(c, u, a, if left then if h * u.y > 0.0 then h else -h else if h * u.y < 0.0 then h else -h)
  {
    LeftCandidate(c, u, a, h);
    RightCandidate(c, u, a, h);
    CandidateOrder(c, u, a, h);
  }

  lemma NegatedFactor(x: real, y: real)
    ensures x * -y == -(x * y) && -y * x == -(x * y)
  {
  }

  // ---- the common chord, by its equations ----

  /** Unit direction u over distance d from c to e, and the chord: a along it, h to either side. */
  datatype Chord = Chord(d: real, u: Vec, a: real, h: real)

  predicate IsChord(k: Chord, c: Vec, r: real, e: Vec, s: real) {
    && k.d > 0.0
    && e.x == c.x + k.d * k.u.x && e.y == c.y + k.d * k.u.y
    && k.u.x * k.u.x + k.u.y * k.u.y == 1.0
    && 2.0 * k.d * k.a == r * r - s * s + k.d * k.d
    && k.h >= 0.0 && k.h * k.h == r * r - k.a * k.a
  }

  lemma ChordParts(c: Vec, r: real, e: Vec, s: real, d: real, v: Vec, u: Vec, a: real, h: real)
    requires d > 0.0 && v == Minus(e, c) && d * u.x == v.x && d * u.y == v.y && u.x * u.x + u.y * u.y == 1.0
    requires 2.0 * d * a == r * r - s * s + d * d
    requires h >= 0.0 && h * h == r * r - a * a
    ensures IsChord(Chord(d, u, a, h), c, r, e, s)
  {
  }

  lemma ChordOf(m: Libm, c: Vec, r: real, e: Vec, s: real) returns (k: Chord)
    requires m.Exact() && !OutOfReach(Norm(m, Minus(e, c)), r, s)
    ensures IsChord(k, c, r, e, s)
    ensures var d := Norm(m, Minus(e, c));
            k == Chord(d, Times(1.0 / d, Minus(e, c)), ChordAt(d, r, s), HalfChord(m, d, r, s))
  {
    var v := Minus(e, c);
    var d := Norm(m, v);
    Direction(m, v);
    k := Chord(d, Times(1.0 / d, v), ChordAt(d, r, s), HalfChord(m, d, r, s));
    ClampIdle(m, d, r, s, k.a, k.h);
    ChordEquation(d, r, s, k.a);
    ChordParts(c, r, e, s, d, v, k.u, k.a, k.h);
  }

  lemma KneeChord(m: Libm, c: Vec, r: real, e: Vec, s: real, left: bool) returns (k: Chord)
    requires m.Exact() && !OutOfReach(Norm(m, Minus(e, c)), r, s)
    ensures IsChord(k, c, r, e, s) && k.d == Norm(m, Minus(e, c))
    ensures CircInt(m, c, r, e, s, left) == Some(Picked(c, k.u, k.a, k.h, left))
  {
    k := ChordOf(m, c, r, e, s);
  }

  lemma AlongQuotient(a: real, d: real, x: real)
    requires d != 0.0
    ensures (a / d) * x == a * ((1.0 / d) * x)
  {
    assert a / d == a * (1.0 / d);
  }

  lemma NegatedQuotient(d: real, x: real)
    requires d != 0.0
    ensures (1.0 / d) * -x == -((1.0 / d) * x)
  {
  }

  /** The lower foot in chord coordinates. */
  lemma LowerAt(c: Vec, u: Vec, a: real, h: real, Pm: Vec, n: Vec)
    requires Pm.x == c.x + a * u.x && Pm.y == c.y + a * u.y && n == Vec(u.y, -u.x)
    ensures Lower(Pm, n, h) == At(c, u, a, if h * u.x > 0.0 then -h else h)
  {
  }

  lemma LowerAtQuotients(c: Vec, v: Vec, d: real, a: real, h: real, u: Vec)
    requires d != 0.0 && u == Times(1.0 / d, v)
    ensures Lower(Plus(c, Times(a / d, v)), Times(1.0 / d, Vec(v.y, -v.x)), h)
         == At(c, u, a, if h * u.x > 0.0 then -h else h)
  {
    AlongQuotient(a, d, v.x);
    AlongQuotient(a, d, v.y);
    NegatedQuotient(d, v.x);
    LowerAt(c, u, a, h, Plus(c, Times(a / d, v)), Times(1.0 / d, Vec(v.y, -v.x)));
  }

  lemma FootChord(m: Libm, p: Params, B: Vec, D: Vec) returns (k: Chord)
    requires m.Exact() && !OutOfReach(Norm(m, Minus(D, B)), p.l2, p.l3)
    ensures IsChord(k, B, p.l2, D, p.l3) && k.d == Norm(m, Minus(D, B))
    ensures LowerFoot(m, p, B, D) == Some(At(B, k.u, k.a, if k.h * k.u.x > 0.0 then -k.h else k.h))
  {
    k := ChordOf(m, B, p.l2, D, p.l3);
    LowerAtQuotients(B, Minus(D, B), k.d, k.a, k.h, k.u);
  }

  /** Either candidate lies on both circles. */
  lemma CandidateOn(k: Chord, c: Vec, r: real, e: Vec, s: real, q: real)
    requires IsChord(k, c, r, e, s) && (q == k.h || q == -k.h)
    ensures On(At(c, k.u, k.a, q), c, r) && On(At(c, k.u, k.a, q), e, s)
  {
    var v := At(c, k.u, k.a, q);
    SameSquare(q, k.h);
    OnBothCircles(c.x, c.y, r, e.x, e.y, s, k.d, k.a, q, k.u.x, k.u.y, v.x, v.y);
  }

  lemma SameSquare(q: real, h: real)
    requires q == h || q == -h
    ensures q * q == h * h
  {
  }

  // ---- knees ----

  lemma ReachNonneg(d: real, r: real, s: real)
    requires !OutOfReach(d, r, s)
    ensures r >= 0.0 && s >= 0.0
  {
  }

  /** The circle intersection the inverse map picks lies exactly on both circles. */
  lemma CircIntOn(m: Libm, c: Vec, r: real, e: Vec, s: real, left: bool)
    requires m.Exact() && CircInt(m, c, r, e, s, left).Some?
    ensures On(CircInt(m, c, r, e, s, left).value, c, r)
    ensures On(CircInt(m, c, r, e, s, left).value, e, s)
    ensures r >= 0.0 && s >= 0.0
  {
    ReachNonneg(Norm(m, Minus(e, c)), r, s);
    var k := KneeChord(m, c, r, e, s, left);
    PickedAt(c, k.u, k.a, k.h, left);
    CandidateOn(k, c, r, e, s, k.h);
    CandidateOn(k, c, r, e, s, -k.h);
  }

  predicate OnLinkage(p: Params, k: Knees, C: Vec) {
    && On(k.B, RearHip(p), p.l1) && On(k.B, C, p.l2)
    && On(k.D, FrontHip(p), p.l4) && On(k.D, C, p.l3)
  }

  /** Accepted poses have their knees exactly at thigh and shin length. */
  lemma KneesOnLinkage(m: Libm, p: Params, C: Vec)
    requires m.Exact() && IkKnees(m, p, C).Some?
    ensures OnLinkage(p, IkKnees(m, p, C).value, C)
    ensures p.l1 >= 0.0 && p.l2 >= 0.0 && p.l3 >= 0.0 && p.l4 >= 0.0
  {
    CircIntOn(m, RearHip(p), p.l1, C, p.l2, true);
    CircIntOn(m, FrontHip(p), p.l4, C, p.l3, false);
  }

  lemma RearKneeRebuilt(m: Libm, p: Params, B: Vec, phi1: real)
    requires m.Exact() && On(B, RearHip(p), p.l1) && p.l1 >= 0.0
    requires phi1 == m.atan2(B.y - RearHip(p).y, RearHip(p).x - B.x)
    ensures RearKnee(m, p, phi1) == B
  {
    var y, x := B.y - RearHip(p).y, RearHip(p).x - B.x;
    OppositeSquare(B.x, RearHip(p).x);
    ArcTangent(m, y, x, p.l1, phi1);
  }

  lemma FrontKneeRebuilt(m: Libm, p: Params, D: Vec, phi4: real)
    requires m.Exact() && On(D, FrontHip(p), p.l4) && p.l4 >= 0.0
    requires phi4 == m.atan2(D.y - FrontHip(p).y, D.x - FrontHip(p).x)
    ensures FrontKnee(m, p, phi4) == D
  {
    var y, x := D.y - FrontHip(p).y, D.x - FrontHip(p).x;
    ArcTangent(m, y, x, p.l4, phi4);
  }

  /** The forward map rebuilds the knees from the angles. */
  lemma KneesRebuilt(m: Libm, p: Params, k: Knees, C: Vec)
    requires m.Exact() && OnLinkage(p, k, C) && p.l1 >= 0.0 && p.l4 >= 0.0
    ensures RearKnee(m, p, AnglesOf(m, p, k).phi1) == k.B
    ensures FrontKnee(m, p, AnglesOf(m, p, k).phi4) == k.D
  {
    RearKneeRebuilt(m, p, k.B, AnglesOf(m, p, k).phi1);
    FrontKneeRebuilt(m, p, k.D, AnglesOf(m, p, k).phi4);
  }

  lemma OppositeSquare(x: real, y: real)
    ensures (x - y) * (x - y) == (y - x) * (y - x)
  {
  }

  // ---- the foot ----

  /** The foot lies on or below the line through the knees, seen with the y axis up. */
  predicate BelowKneeLine(k: Knees, C: Vec) {
    var cross := (C.y - k.B.y) * (k.D.x - k.B.x) - (C.x - k.B.x) * (k.D.y - k.B.y);
    if k.D.x > k.B.x then cross <= 0.0 else cross >= 0.0
  }

  lemma DistinctKnees(m: Libm, B: Vec, D: Vec)
    requires m.Exact()
    ensures Norm(m, Minus(D, B)) == 0.0 <==> B == D
  {
    var v := Minus(D, B);
    NormSquare(m, v);
    if Norm(m, v) == 0.0 {
      SumOfSquares(v.x, v.y);
    } else if B == D {
      assert v.x == 0.0 && v.y == 0.0;
      SquareUnique(Norm(m, v), 0.0);
    }
  }

  lemma SumOfSquares(x: real, y: real)
    requires x * x + y * y == 0.0
    ensures x == 0.0 && y == 0.0
  {
    SquareNonneg(x);
    SquareNonneg(y);
    if x > 0.0 { SquareGrows(0.0, x); } else if x < 0.0 { SquareGrows(0.0, -x); }
    if y > 0.0 { SquareGrows(0.0, y); } else if y < 0.0 { SquareGrows(0.0, -y); }
  }

  lemma CommonPointWithinReach(m: Libm, c: Vec, r: real, e: Vec, s: real, v: Vec)
    requires m.Exact() && r >= 0.0 && s >= 0.0 && Norm(m, Minus(e, c)) != 0.0
    requires On(v, c, r) && On(v, e, s)
    ensures !OutOfReach(Norm(m, Minus(e, c)), r, s)
  {
    var w := Minus(e, c);
    NormSquare(m, w);
    CentresReach(c.x, c.y, r, e.x, e.y, s, v.x, v.y, w.x, w.y, Norm(m, w));
  }

  lemma OnSymmetric(v: Vec, c: Vec, r: real)
    requires On(v, c, r)
    ensures On(c, v, r)
  {
    OppositeSquare(v.x, c.x);
    OppositeSquare(v.y, c.y);
  }

  /** How far v lies to the left of the chord's direction. */
  function Side(k: Chord, c: Vec, v: Vec): real {
    (v.y - c.y) * k.u.x - (v.x - c.x) * k.u.y
  }

  lemma CandidateSide(k: Chord, c: Vec, r: real, e: Vec, s: real, v: Vec)
    requires IsChord(k, c, r, e, s) && On(v, c, r) && On(v, e, s)
    ensures var side := Side(k, c, v);
            side == (if side >= 0.0 then k.h else -k.h) && v == At(c, k.u, k.a, side)
  {
    var px, py, side := v.x - c.x, v.y - c.y, Side(k, c, v);
    CommonPoint(c.x, c.y, r, e.x, e.y, s, k.d, k.a, k.h, k.u.x, k.u.y, v.x, v.y, px, py, side);
  }

  /** Points across the same direction at different offsets differ. */
  lemma AtInjective(c: Vec, u: Vec, a: real, q: real, q': real)
    requires u.x * u.x + u.y * u.y == 1.0 && At(c, u, a, q) == At(c, u, a, q')
    ensures q == q'
  {
    assert q * u.y == q' * u.y && q * u.x == q' * u.x;
    assert q * (u.x * u.x + u.y * u.y) == q' * (u.x * u.x + u.y * u.y);
  }

  /** The cross product below the knee line is the side scaled by the distance between the knees. */
  lemma CrossIsSide(k: Chord, B: Vec, r: real, D: Vec, s: real, C: Vec)
    requires IsChord(k, B, r, D, s)
    ensures (C.y - B.y) * (D.x - B.x) - (C.x - B.x) * (D.y - B.y) == k.d * Side(k, B, C)
  {
    assert D.x - B.x == k.d * k.u.x && D.y - B.y == k.d * k.u.y;
  }

  lemma SignOf(d: real, x: real)
    requires d > 0.0
    ensures d * x > 0.0 <==> x > 0.0
    ensures d * x < 0.0 <==> x < 0.0
  {
  }

  lemma BelowIsSide(k: Chord, p: Params, n: Knees, C: Vec)
    requires IsChord(k, n.B, p.l2, n.D, p.l3)
    ensures BelowKneeLine(n, C) <==> if k.u.x > 0.0 then Side(k, n.B, C) <= 0.0 else Side(k, n.B, C) >= 0.0
  {
    CrossIsSide(k, n.B, p.l2, n.D, p.l3, C);
    SignOf(k.d, k.u.x);
    SignOf(k.d, Side(k, n.B, C));
  }

  // ---- the round trips ----

  /**
   From the knees, the forward map succeeds exactly when they are distinct, and then returns the foot
   exactly when the foot is on or below the knee line.
   */
  lemma LowerFootRecovers(m: Libm, p: Params, k: Knees, C: Vec)
    requires m.Exact() && OnLinkage(p, k, C) && p.l2 >= 0.0 && p.l3 >= 0.0
    ensures LowerFoot(m, p, k.B, k.D).Some? <==> k.B != k.D
    ensures LowerFoot(m, p, k.B, k.D) == Some(C) <==> k.B != k.D && BelowKneeLine(k, C)
  {
    DistinctKnees(m, k.B, k.D);
    if k.B != k.D {
      OnSymmetric(k.B, C, p.l2);
      OnSymmetric(k.D, C, p.l3);
      CommonPointWithinReach(m, k.B, p.l2, k.D, p.l3, C);
      var chord := FootChord(m, p, k.B, k.D);
      CandidateSide(chord, k.B, p.l2, k.D, p.l3, C);
      BelowIsSide(chord, p, k, C);
      FootChoice(chord, k.B, C, Side(chord, k.B, C));
    }
  }

  lemma FootChoice(k: Chord, B: Vec, C: Vec, side: real)
    requires k.u.x * k.u.x + k.u.y * k.u.y == 1.0 && k.h >= 0.0
    requires side == (if side >= 0.0 then k.h else -k.h) && C == At(B, k.u, k.a, side)
    ensures At(B, k.u, k.a, if k.h * k.u.x > 0.0 then -k.h else k.h) == C
       <==> if k.u.x > 0.0 then side <= 0.0 else side >= 0.0
  {
    var q := if k.h * k.u.x > 0.0 then -k.h else k.h;
    if At(B, k.u, k.a, q) == C {
      AtInjective(B, k.u, k.a, q, side);
    }
    ProductSign(k.h, k.u.x);
  }

  lemma ProductSign(h: real, x: real)
    requires h >= 0.0
    ensures h * x > 0.0 <==> h > 0.0 && x > 0.0
  {
  }

  /** Polar coordinates of a foot away from the hip determine it and are determined by it. */
  lemma PolarUnique(m: Libm, pose: Pose, C: Vec)
    requires m.Exact() && pose.L0 > 0.0 && -m.pi < pose.thL <= m.pi
    ensures PoseOf(m, C) == pose <==> C == FootOf(m, pose)
  {
    PolarOf(m, C);
    if C == FootOf(m, pose) {
      var s, c := m.sin(pose.thL), m.cos(pose.thL);
      UnitCircle(m, pose.thL, s, c);
      FootSquare(pose.L0, s, c, SquaredNorm(C));
      NormSquare(m, C);
      SquareUnique(Norm(m, C), pose.L0);
      SameFactor(pose.L0, m.sin(PoseOf(m, C).thL), s, C.x);
      SameFactor(pose.L0, m.cos(PoseOf(m, C).thL), c, -C.y);
      SameAngle(m, PoseOf(m, C).thL, pose.thL);
    }
  }

  lemma PolarOf(m: Libm, C: Vec)
    requires m.Exact()
    ensures FootOf(m, PoseOf(m, C)) == C
    ensures -m.pi < PoseOf(m, C).thL <= m.pi
  {
    NormSquare(m, C);
    ArcTangent(m, C.x, -C.y, Norm(m, C), PoseOf(m, C).thL);
  }

  /** A pose is the foot in polar form: its distance from the origin, and its angle from straight down, positive forward. */
  lemma {:induction false} PoseIsPolar(m: Libm, C: Vec, pose: Pose)
    requires m.Exact() && pose == PoseOf(m, C)
    ensures pose.L0 >= 0.0 && pose.L0 * pose.L0 == C.x * C.x + C.y * C.y
    ensures pose.L0 * m.sin(pose.thL) == C.x && pose.L0 * m.cos(pose.thL) == -C.y
  {
    NormSquare(m, C);
    ArcTangent(m, C.x, -C.y, Norm(m, C), pose.thL);
  }

  /** At crank angle zero the thighs point outward, rear and front; both knees rise with the sine of their angle. */
  lemma {:induction false} ThighsPointOutward(m: Libm, p: Params, phi: real)
    requires m.Exact()
    ensures RearKnee(m, p, 0.0) == Vec(RearHip(p).x - p.l1, 0.0) && FrontKnee(m, p, 0.0) == Vec(FrontHip(p).x + p.l4, 0.0)
    ensures RearKnee(m, p, phi).y == p.l1 * m.sin(phi) && FrontKnee(m, p, phi).y == p.l4 * m.sin(phi)
  {
  }

  lemma FootSquare(r: real, s: real, c: real, z: real)
    requires s * s + c * c == 1.0 && z == (r * s) * (r * s) + (-r * c) * (-r * c)
    ensures z == r * r
  {
    assert z == (r * r) * (s * s + c * c);
  }

  /** A pose as the forward map reports them: a foot off the origin, or the origin with its own angle. */
  predicate Canonical(m: Libm, pose: Pose) {
    (pose.L0 > 0.0 && -m.pi < pose.thL <= m.pi) || (pose.L0 == 0.0 && pose.thL == m.atan2(0.0, 0.0))
  }

  lemma PolarExactly(m: Libm, pose: Pose, C: Vec)
    requires m.Exact()
    ensures PoseOf(m, C) == pose <==> C == FootOf(m, pose) && Canonical(m, pose)
  {
    PolarOf(m, C);
    NormSquare(m, C);
    if pose.L0 > 0.0 && -m.pi < pose.thL <= m.pi {
      PolarUnique(m, pose, C);
    } else if pose.L0 == 0.0 && C == FootOf(m, pose) {
      assert C.x == 0.0 && C.y == 0.0;
      SquareUnique(Norm(m, C), 0.0);
    }
  }

  /**
   Whenever the inverse accepts a pose, the forward map of its angles gives back exactly that pose
   precisely when the pose is one that the forward map reports, the knees are distinct, and the foot is
   on or below the line through them.
   */
  lemma RoundTrip(m: Libm, p: Params, pose: Pose)
    requires m.Exact() && Ik(m, p, pose).Some?
    ensures var k := IkKnees(m, p, FootOf(m, pose)).value;
            Fk(m, p, Ik(m, p, pose).value) == Some(pose) <==>
              Canonical(m, pose) && k.B != k.D && BelowKneeLine(k, FootOf(m, pose))
  {
    var C := FootOf(m, pose);
    var k := IkKnees(m, p, C).value;
    KneesOnLinkage(m, p, C);
    KneesRebuilt(m, p, k, C);
    LowerFootRecovers(m, p, k, C);
    var foot := LowerFoot(m, p, k.B, k.D);
    if foot.Some? {
      PolarExactly(m, pose, foot.value);
    }
  }

  /** v lies on the rear side of, or on, the line from the hip c to the foot. */
  predicate BehindLegLine(c: Vec, foot: Vec, v: Vec) {
    var cross := (v.y - c.y) * (foot.x - c.x) - (v.x - c.x) * (foot.y - c.y);
    if foot.y > c.y then cross >= 0.0 else cross <= 0.0
  }

  predicate AheadOfLegLine(c: Vec, foot: Vec, v: Vec) {
    var cross := (v.y - c.y) * (foot.x - c.x) - (v.x - c.x) * (foot.y - c.y);
    if foot.y < c.y then cross >= 0.0 else cross <= 0.0
  }

  lemma KneeChoice(k: Chord, c: Vec, v: Vec, side: real, left: bool)
    requires k.u.x * k.u.x + k.u.y * k.u.y == 1.0 && k.h >= 0.0
    requires side == (if side >= 0.0 then k.h else -k.h) && v == At(c, k.u, k.a, side)
    ensures Picked(c, k.u, k.a, k.h, left) == v
       <==> if (if left then k.u.y > 0.0 else k.u.y < 0.0) then side >= 0.0 else side <= 0.0
  {
    PickedAt(c, k.u, k.a, k.h, left);
    ProductSign(k.h, k.u.y);
    ProductSign(k.h, -k.u.y);
    var q := if left then if k.h * k.u.y > 0.0 then k.h else -k.h else if k.h * k.u.y < 0.0 then k.h else -k.h;
    if At(c, k.u, k.a, q) == v {
      AtInjective(c, k.u, k.a, q, side);
    }
  }

  lemma LegLineIsSide(k: Chord, c: Vec, r: real, foot: Vec, s: real, v: Vec)
    requires IsChord(k, c, r, foot, s)
    ensures BehindLegLine(c, foot, v) <==> if k.u.y > 0.0 then Side(k, c, v) >= 0.0 else Side(k, c, v) <= 0.0
    ensures AheadOfLegLine(c, foot, v) <==> if k.u.y < 0.0 then Side(k, c, v) >= 0.0 else Side(k, c, v) <= 0.0
  {
    CrossIsSide(k, c, r, foot, s, v);
    SignOf(k.d, k.u.y);
    SignOf(k.d, Side(k, c, v));
  }

  /** The inverse picks a given knee exactly when it is on its own side of the leg. */
  lemma KneeRecovered(m: Libm, c: Vec, r: real, foot: Vec, s: real, v: Vec, left: bool)
    requires m.Exact() && r >= 0.0 && s >= 0.0 && On(v, c, r) && On(v, foot, s)
    ensures CircInt(m, c, r, foot, s, left) == Some(v)
       <==> foot != c && if left then BehindLegLine(c, foot, v) else AheadOfLegLine(c, foot, v)
  {
    DistinctKnees(m, c, foot);
    if foot != c {
      CommonPointWithinReach(m, c, r, foot, s, v);
      var k := KneeChord(m, c, r, foot, s, left);
      CandidateSide(k, c, r, foot, s, v);
      LegLineIsSide(k, c, r, foot, s, v);
      KneeChoice(k, c, v, Side(k, c, v), left);
    }
  }

  lemma LowerFootOn(m: Libm, p: Params, B: Vec, D: Vec)
    requires m.Exact() && LowerFoot(m, p, B, D).Some?
    ensures On(LowerFoot(m, p, B, D).value, B, p.l2) && On(LowerFoot(m, p, B, D).value, D, p.l3)
    ensures p.l2 >= 0.0 && p.l3 >= 0.0
  {
    ReachNonneg(Norm(m, Minus(D, B)), p.l2, p.l3);
    var k := FootChord(m, p, B, D);
    CandidateOn(k, B, p.l2, D, p.l3, k.h);
    CandidateOn(k, B, p.l2, D, p.l3, -k.h);
  }

  lemma CrankOn(m: Libm, a: real, r: real, y: real, x: real, s: real, c: real)
    requires m.Exact() && s == m.sin(a) && c == m.cos(a) && y == r * s && x == r * c
    ensures x * x + y * y == r * r
  {
    UnitCircle(m, a, s, c);
    assert x * x + y * y == (r * r) * (s * s + c * c);
  }

  /** The angle of a crank end has the crank's own sine and cosine. */
  lemma CrankAngle(m: Libm, a: real, r: real, y: real, x: real)
    requires m.Exact() && r > 0.0 && y == r * m.sin(a) && x == r * m.cos(a)
    ensures m.sin(m.atan2(y, x)) == m.sin(a) && m.cos(m.atan2(y, x)) == m.cos(a)
  {
    var b := m.atan2(y, x);
    CrankOn(m, a, r, y, x, m.sin(a), m.cos(a));
    ArcTangent(m, y, x, r, b);
    SameFactor(r, m.sin(b), m.sin(a), y);
    SameFactor(r, m.cos(b), m.cos(a), x);
  }

  lemma SameFactor(r: real, s: real, t: real, y: real)
    requires r > 0.0 && r * s == y && r * t == y
    ensures s == t
  {
    Cancel(r, s, t);
  }

  lemma RearCrank(m: Libm, p: Params, phi1: real, B: Vec, y: real, x: real)
    requires B == RearKnee(m, p, phi1) && y == B.y - RearHip(p).y && x == RearHip(p).x - B.x
    ensures y == p.l1 * m.sin(phi1) && x == p.l1 * m.cos(phi1)
  {
    NegatedFactor(m.sin(phi1), p.l1);
  }

  lemma FrontCrank(m: Libm, p: Params, phi4: real, D: Vec, y: real, x: real)
    requires D == FrontKnee(m, p, phi4) && y == D.y - FrontHip(p).y && x == D.x - FrontHip(p).x
    ensures y == p.l4 * m.sin(phi4) && x == p.l4 * m.cos(phi4)
  {
  }

  lemma OnByOffset(v: Vec, c: Vec, r: real, y: real, x: real)
    requires y == v.y - c.y && (x == v.x - c.x || x == c.x - v.x) && x * x + y * y == r * r
    ensures On(v, c, r)
  {
    OppositeSquare(v.x, c.x);
  }

  lemma RearKneeOn(m: Libm, p: Params, phi1: real)
    requires m.Exact()
    ensures On(RearKnee(m, p, phi1), RearHip(p), p.l1)
  {
    var A, B := RearHip(p), RearKnee(m, p, phi1);
    var y, x := B.y - A.y, A.x - B.x;
    RearCrank(m, p, phi1, B, y, x);
    CrankOn(m, phi1, p.l1, y, x, m.sin(phi1), m.cos(phi1));
    OnByOffset(B, A, p.l1, y, x);
  }

  lemma FrontKneeOn(m: Libm, p: Params, phi4: real)
    requires m.Exact()
    ensures On(FrontKnee(m, p, phi4), FrontHip(p), p.l4)
  {
    var E, D := FrontHip(p), FrontKnee(m, p, phi4);
    var y, x := D.y - E.y, D.x - E.x;
    FrontCrank(m, p, phi4, D, y, x);
    CrankOn(m, phi4, p.l4, y, x, m.sin(phi4), m.cos(phi4));
    OnByOffset(D, E, p.l4, y, x);
  }

  lemma RearAngle(m: Libm, p: Params, phi1: real, B: Vec)
    requires m.Exact() && p.l1 > 0.0 && B == RearKnee(m, p, phi1)
    ensures SameDirection(m, m.atan2(B.y - RearHip(p).y, RearHip(p).x - B.x), phi1)
  {
    var y, x := B.y - RearHip(p).y, RearHip(p).x - B.x;
    RearCrank(m, p, phi1, B, y, x);
    CrankAngle(m, phi1, p.l1, y, x);
  }

  lemma FrontAngle(m: Libm, p: Params, phi4: real, D: Vec)
    requires m.Exact() && p.l4 > 0.0 && D == FrontKnee(m, p, phi4)
    ensures SameDirection(m, m.atan2(D.y - FrontHip(p).y, D.x - FrontHip(p).x), phi4)
  {
    var y, x := D.y - FrontHip(p).y, D.x - FrontHip(p).x;
    FrontCrank(m, p, phi4, D, y, x);
    CrankAngle(m, phi4, p.l4, y, x);
  }

  predicate SameDirection(m: Libm, a: real, b: real) {
    m.sin(a) == m.sin(b) && m.cos(a) == m.cos(b)
  }

  /** Equal up to whole turns. */
  predicate SameCranks(m: Libm, q: Angles, r: Angles) {
    SameDirection(m, q.phi1, r.phi1) && SameDirection(m, q.phi4, r.phi4)
  }

  predicate InTurn(m: Libm, q: Angles) {
    -m.pi < q.phi1 <= m.pi && -m.pi < q.phi4 <= m.pi
  }

  lemma SameCranksSameKnees(m: Libm, p: Params, q: Angles, r: Angles)
    requires SameCranks(m, q, r)
    ensures RearKnee(m, p, q.phi1) == RearKnee(m, p, r.phi1) && FrontKnee(m, p, q.phi4) == FrontKnee(m, p, r.phi4)
  {
  }

  /** Angles up to whole turns and knees on the thigh circles determine each other. */
  lemma AnglesUnique(m: Libm, p: Params, q: Angles, k: Knees, C: Vec)
    requires m.Exact() && p.l1 > 0.0 && p.l4 > 0.0 && OnLinkage(p, k, C)
    ensures SameCranks(m, AnglesOf(m, p, k), q) <==> k == Knees(RearKnee(m, p, q.phi1), FrontKnee(m, p, q.phi4))
  {
    KneesRebuilt(m, p, k, C);
    if SameCranks(m, AnglesOf(m, p, k), q) {
      SameCranksSameKnees(m, p, AnglesOf(m, p, k), q);
    }
    if k == Knees(RearKnee(m, p, q.phi1), FrontKnee(m, p, q.phi4)) {
      RearAngle(m, p, q.phi1, k.B);
      FrontAngle(m, p, q.phi4, k.D);
    }
  }

  lemma AnglesInTurn(m: Libm, p: Params, k: Knees, q: Angles)
    requires m.Exact()
    ensures AnglesOf(m, p, k) == q <==> SameCranks(m, AnglesOf(m, p, k), q) && InTurn(m, q)
  {
    var r := AnglesOf(m, p, k);
    AtanRange(m, k.B.y - RearHip(p).y, RearHip(p).x - k.B.x, r.phi1);
    AtanRange(m, k.D.y - FrontHip(p).y, k.D.x - FrontHip(p).x, r.phi4);
    if SameCranks(m, r, q) && InTurn(m, q) {
      SameAngle(m, r.phi1, q.phi1);
      SameAngle(m, r.phi4, q.phi4);
    }
  }

  lemma AtanRange(m: Libm, y: real, x: real, a: real)
    requires m.Exact() && a == m.atan2(y, x)
    ensures -m.pi < a <= m.pi
  {
    assert Used(y, x);
  }

  /** The foot of crank angles that the forward map accepts. */
  function FootAt(m: Libm, p: Params, q: Angles): Option<Vec> {
    LowerFoot(m, p, RearKnee(m, p, q.phi1), FrontKnee(m, p, q.phi4))
  }

  /** The foot is at neither hip, and each knee is on its own side of the line from its hip to the foot. */
  predicate KneesOutward(m: Libm, p: Params, q: Angles, C: Vec) {
    && C != RearHip(p) && BehindLegLine(RearHip(p), C, RearKnee(m, p, q.phi1))
    && C != FrontHip(p) && AheadOfLegLine(FrontHip(p), C, FrontKnee(m, p, q.phi4))
  }

  /**
   Whenever the forward map accepts crank angles, the inverse of its pose gives back those angles, up to
   whole turns, precisely when the knees are outward: the rear one on or behind its leg line, the front
   one on or ahead of its own. It gives back exactly those angles if they are also within a turn.
   */
  lemma ReverseTrip(m: Libm, p: Params, q: Angles)
    requires m.Exact() && Fk(m, p, q).Some? && p.l1 > 0.0 && p.l4 > 0.0
    ensures FootAt(m, p, q).Some?
    ensures var r := Ik(m, p, Fk(m, p, q).value);
            && (r.Some? && SameCranks(m, r.value, q) <==> KneesOutward(m, p, q, FootAt(m, p, q).value))
            && (r == Some(q) <==> KneesOutward(m, p, q, FootAt(m, p, q).value) && InTurn(m, q))
  {
    var C := FootAt(m, p, q).value;
    PolarOf(m, C);
    KneesAccepted(m, p, q, RearKnee(m, p, q.phi1), FrontKnee(m, p, q.phi4), C);
    if IkKnees(m, p, C).Some? {
      AnglesInTurn(m, p, IkKnees(m, p, C).value, q);
    }
  }

  lemma KneesAccepted(m: Libm, p: Params, q: Angles, B: Vec, D: Vec, C: Vec)
    requires m.Exact() && p.l1 > 0.0 && p.l4 > 0.0
    requires B == RearKnee(m, p, q.phi1) && D == FrontKnee(m, p, q.phi4) && LowerFoot(m, p, B, D) == Some(C)
    ensures (IkKnees(m, p, C).Some? && SameCranks(m, AnglesOf(m, p, IkKnees(m, p, C).value), q))
       <==> KneesOutward(m, p, q, C)
  {
    LowerFootOn(m, p, B, D);
    OnSymmetric(C, B, p.l2);
    OnSymmetric(C, D, p.l3);
    RearKneeOn(m, p, q.phi1);
    FrontKneeOn(m, p, q.phi4);
    KneeRecovered(m, RearHip(p), p.l1, C, p.l2, B, true);
    KneeRecovered(m, FrontHip(p), p.l4, C, p.l3, D, false);
    if IkKnees(m, p, C).Some? {
      KneesOnLinkage(m, p, C);
      AnglesUnique(m, p, q, IkKnees(m, p, C).value, C);
    }
  }

  // ---- the symmetric linkage ----

  /** Half the distance between the knees, negative when they are crossed. */
  function HalfSpan(m: Libm, p: Params, phi: real): real {
    p.l5 / 2.0 + p.l1 * m.cos(phi)
  }

  lemma SymmetricKnees(m: Libm, p: Params, phi: real)
    requires p.l1 == p.l4
    ensures RearKnee(m, p, phi) == Vec(-HalfSpan(m, p, phi), p.l1 * m.sin(phi))
    ensures FrontKnee(m, p, phi) == Vec(HalfSpan(m, p, phi), p.l1 * m.sin(phi))
  {
  }

  lemma LevelChord(k: Chord, w: real, y: real, l: real)
    requires IsChord(k, Vec(-w, y), l, Vec(w, y), l)
    ensures k.u.y == 0.0 && k.a * k.u.x == w && k.h * k.h == l * l - w * w
    ensures k.u.x == 1.0 || k.u.x == -1.0
  {
    assert k.d * k.u.y == 0.0;
    ZeroFactor(k.d, k.u.y);
    assert k.u.y * k.u.y == 0.0;
    UnitSign(k.u.x);
    HalfOf(k.d, k.a);
  }

  lemma ZeroFactor(d: real, x: real)
    requires d > 0.0 && d * x == 0.0
    ensures x == 0.0
  {
  }

  lemma HalfOf(d: real, a: real)
    requires d > 0.0 && 2.0 * d * a == d * d
    ensures a == d / 2.0
  {
  }

  lemma UnitSign(x: real)
    requires x * x == 1.0
    ensures x == 1.0 || x == -1.0
  {
    assert (x - 1.0) * (x + 1.0) == 0.0;
  }

  lemma LevelSpan(m: Libm, w: real, y: real)
    requires m.Exact()
    ensures Norm(m, Minus(Vec(w, y), Vec(-w, y))) == 2.0 * Abs(w)
  {
    var v := Minus(Vec(w, y), Vec(-w, y));
    NormSquare(m, v);
    assert v.x == 2.0 * w && v.y == 0.0;
    SpanSquare(w, v.x, 2.0 * Abs(w));
    SquareUnique(Norm(m, v), 2.0 * Abs(w));
  }

  lemma SpanSquare(w: real, x: real, z: real)
    requires x == 2.0 * w && (z == x || z == -x)
    ensures z * z == x * x
  {
  }

  lemma LevelReach(m: Libm, p: Params, w: real, y: real)
    requires m.Exact() && p.l2 == p.l3
    ensures LowerFoot(m, p, Vec(-w, y), Vec(w, y)).Some? <==> w != 0.0 && Abs(w) <= p.l2
    ensures OutOfReach(Norm(m, Minus(Vec(w, y), Vec(-w, y))), p.l2, p.l3) <==> !(w != 0.0 && Abs(w) <= p.l2)
  {
    LevelSpan(m, w, y);
  }

  /** Level knees at equal shins put the foot on the centre line, below them by h. */
  lemma LevelFoot(m: Libm, p: Params, w: real, y: real) returns (h: real)
    requires m.Exact() && p.l2 == p.l3 && w != 0.0 && Abs(w) <= p.l2
    ensures h >= 0.0 && h * h == p.l2 * p.l2 - w * w
    ensures LowerFoot(m, p, Vec(-w, y), Vec(w, y)) == Some(Vec(0.0, y - h))
  {
    LevelReach(m, p, w, y);
    var k := FootChord(m, p, Vec(-w, y), Vec(w, y));
    LevelChord(k, w, y, p.l2);
    LevelChoice(k, w, y);
    h := k.h;
  }

  lemma LevelChoice(k: Chord, w: real, y: real)
    requires k.h >= 0.0 && k.u.y == 0.0 && k.a * k.u.x == w && (k.u.x == 1.0 || k.u.x == -1.0)
    ensures At(Vec(-w, y), k.u, k.a, if k.h * k.u.x > 0.0 then -k.h else k.h) == Vec(0.0, y - k.h)
  {
  }

  /** With shins longer than thigh plus half the hip spacing, the foot is below the hip line. */
  lemma BelowHip(l1: real, l2: real, half: real, s: real, c: real, h: real)
    requires s * s + c * c == 1.0 && l1 >= 0.0 && half >= 0.0 && l2 > l1 + half
    requires h >= 0.0 && h * h == l2 * l2 - (half + l1 * c) * (half + l1 * c)
    ensures l1 * s - h < 0.0
  {
    var y, w := l1 * s, half + l1 * c;
    CosineBound(s, c);
    ScaledBound(l1 * half, c);
    assert y * y + w * w == l1 * l1 * (s * s + c * c) + 2.0 * (l1 * half * c) + half * half;
    assert (l1 + half) * (l1 + half) == l1 * l1 + 2.0 * (l1 * half) + half * half;
    SquareGrows(l1 + half, l2);
    if y >= h {
      NotBelow(h, y);
    }
  }

  lemma NotBelow(h: real, y: real)
    requires 0.0 <= h <= y
    ensures h * h <= y * y
  {
    if h < y {
      SquareGrows(h, y);
    }
  }

  lemma CosineBound(s: real, c: real)
    requires s * s + c * c == 1.0
    ensures c <= 1.0
  {
    SquareNonneg(s);
    if c > 1.0 {
      SquareGrows(1.0, c);
    }
  }

  lemma ScaledBound(k: real, c: real)
    requires k >= 0.0 && c <= 1.0
    ensures k * c <= k
  {
  }

  lemma StraightDown(m: Libm, y: real)
    requires m.Exact() && y < 0.0
    ensures PoseOf(m, Vec(0.0, y)) == Pose(-y, 0.0)
  {
    PolarUnique(m, Pose(-y, 0.0), Vec(0.0, y));
  }

  predicate Symmetric(p: Params) {
    && p.l1 == p.l4 && p.l2 == p.l3
    && p.l1 >= 0.0 && p.l5 >= 0.0 && p.l2 > p.l1 + p.l5 / 2.0
  }

  lemma SymmetricSpan(m: Libm, p: Params, phi: real, w: real)
    requires m.Exact() && Symmetric(p) && w == HalfSpan(m, p, phi)
    ensures Abs(w) <= p.l2
  {
    UnitCircle(m, phi, m.sin(phi), m.cos(phi));
    SpanBound(p.l1, p.l5 / 2.0, m.sin(phi), m.cos(phi));
  }

  lemma SymmetricDrop(m: Libm, p: Params, phi: real, w: real, h: real, L0: real)
    requires m.Exact() && Symmetric(p) && w == HalfSpan(m, p, phi)
    requires h >= 0.0 && h * h == p.l2 * p.l2 - w * w && L0 == h - p.l1 * m.sin(phi)
    ensures L0 > 0.0
  {
    UnitCircle(m, phi, m.sin(phi), m.cos(phi));
    BelowHip(p.l1, p.l2, p.l5 / 2.0, m.sin(phi), m.cos(phi), h);
  }

  lemma SymmetricFoot(m: Libm, p: Params, phi: real) returns (L0: real)
    requires m.Exact() && Symmetric(p) && HalfSpan(m, p, phi) != 0.0
    ensures L0 > 0.0
    ensures LowerFoot(m, p, RearKnee(m, p, phi), FrontKnee(m, p, phi)) == Some(Vec(0.0, -L0))
  {
    var w, y := HalfSpan(m, p, phi), p.l1 * m.sin(phi);
    SymmetricKnees(m, p, phi);
    SymmetricSpan(m, p, phi, w);
    var h := LevelFoot(m, p, w, y);
    L0 := h - y;
    SymmetricDrop(m, p, phi, w, h, L0);
  }

  lemma SymmetricFails(m: Libm, p: Params, phi: real)
    requires m.Exact() && Symmetric(p) && HalfSpan(m, p, phi) == 0.0
    ensures LowerFoot(m, p, RearKnee(m, p, phi), FrontKnee(m, p, phi)) == None
  {
    SymmetricKnees(m, p, phi);
    DistinctKnees(m, RearKnee(m, p, phi), FrontKnee(m, p, phi));
  }

  /** Equal crank angles on a symmetric linkage: which succeed, and that all that do hang straight down. */
  lemma SymmetricPose(m: Libm, p: Params, phi: real)
    requires m.Exact() && Symmetric(p)
    ensures Fk(m, p, Angles(phi, phi)).Some? <==> HalfSpan(m, p, phi) != 0.0
    ensures Fk(m, p, Angles(phi, phi)).Some? ==>
              var pose := Fk(m, p, Angles(phi, phi)).value;
              pose.thL == 0.0 && pose.L0 > 0.0 && FootOf(m, pose) == Vec(0.0, -pose.L0)
  {
    if HalfSpan(m, p, phi) != 0.0 {
      var L0 := SymmetricFoot(m, p, phi);
      StraightDown(m, -L0);
      StraightFoot(m, L0);
    } else {
      SymmetricFails(m, p, phi);
    }
  }

  lemma StraightFoot(m: Libm, L0: real)
    requires m.Exact()
    ensures FootOf(m, Pose(L0, 0.0)) == Vec(0.0, -L0)
  {
  }

  lemma SpanBound(l1: real, half: real, s: real, c: real)
    requires s * s + c * c == 1.0 && l1 >= 0.0 && half >= 0.0
    ensures Abs(half + l1 * c) <= l1 + half
  {
    CosineBound(s, c);
    OppositeCosine(s, c);
    CosineBound(s, -c);
    ScaledBound(l1, c);
    ScaledBound(l1, -c);
  }

  lemma OppositeCosine(s: real, c: real)
    requires s * s + c * c == 1.0
    ensures s * s + (-c) * (-c) == 1.0
  {
  }

  /** For the robot's legs the pose hangs straight down for every crank angle but those with cosine −5/13. */
  lemma RobotLegsHangStraight(m: Libm, phi: real)
    requires m.Exact()
    ensures Fk(m, LEG_PARAMS, Angles(phi, phi)).Some? <==> m.cos(phi) != -5.0 / 13.0
    ensures Fk(m, LEG_PARAMS, Angles(phi, phi)).Some? ==>
              var pose := Fk(m, LEG_PARAMS, Angles(phi, phi)).value;
              pose.thL == 0.0 && pose.L0 > 0.0
  {
    SymmetricPose(m, LEG_PARAMS, phi);
  }
}
