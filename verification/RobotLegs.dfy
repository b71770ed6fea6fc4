/** What the round trips amount to on symmetric linkages with long shins, and on the robot's own legs. */
module RobotLegs {
  import opened Basics
  import opened RealFunctions
  import opened PlaneGeometry
  import opened FiveBar
  import Products

  function Mirror(v: Vec): Vec {
    Vec(-v.x, v.y)
  }

  // ---- straight poses ----

  lemma RearKneeOf(m: Libm, p: Params, L: real, B: Vec)
    requires m.Exact() && Symmetric(p) && L > 0.0 && CircInt(m, RearHip(p), p.l1, Vec(0.0, -L), p.l2, true) == Some(B)
    ensures On(B, RearHip(p), p.l1) && On(B, Vec(0.0, -L), p.l2) && BehindLegLine(RearHip(p), Vec(0.0, -L), B)
  {
    CircIntOn(m, RearHip(p), p.l1, Vec(0.0, -L), p.l2, true);
    KneeRecovered(m, RearHip(p), p.l1, Vec(0.0, -L), p.l2, B, true);
  }

  /** The knees of a foot on the centre line mirror each other. */
  lemma StraightKnees(m: Libm, p: Params, L: real)
    requires m.Exact() && Symmetric(p) && L > 0.0
    ensures var (rear, k) := (CircInt(m, RearHip(p), p.l1, Vec(0.0, -L), p.l2, true), IkKnees(m, p, Vec(0.0, -L)));
            && (k.Some? <==> rear.Some?)
            && (rear.Some? ==> k == Some(Knees(rear.value, Mirror(rear.value))))
  {
    var C, A := Vec(0.0, -L), RearHip(p);
    var rear := CircInt(m, A, p.l1, C, p.l2, true);
    if rear.Some? {
      var B := rear.value;
      RearKneeOf(m, p, L, B);
      MirroredOn(B, A, p.l1);
      MirroredOn(B, C, p.l2);
      MirroredLine(A, L, B);
      KneeRecovered(m, FrontHip(p), p.l4, C, p.l3, Mirror(B), false);
    }
  }

  lemma MirroredOn(v: Vec, c: Vec, r: real)
    requires On(v, c, r)
    ensures On(Mirror(v), Mirror(c), r)
  {
    assert (-v.x - -c.x) * (-v.x - -c.x) == (v.x - c.x) * (v.x - c.x);
  }

  lemma MirroredLine(c: Vec, L: real, v: Vec)
    requires c.y == 0.0 && L > 0.0 && BehindLegLine(c, Vec(0.0, -L), v)
    ensures AheadOfLegLine(Mirror(c), Vec(0.0, -L), Mirror(v))
  {
    assert (v.y - 0.0) * (0.0 - -c.x) - (-v.x - -c.x) * (-L - 0.0) == -((v.y - 0.0) * (0.0 - c.x) - (v.x - c.x) * (-L - 0.0));
  }

  /** With shins longer than thigh plus half the hip spacing, the rear knee is behind the centre line and above the foot. */
  lemma KneeBehind(x: real, y: real, e: real, l1: real, l2: real, L: real)
    requires (x + e) * (x + e) + y * y == l1 * l1 && x * x + (y + L) * (y + L) == l2 * l2
    requires y * e + (x + e) * L <= 0.0
    requires e > 0.0 && l1 >= 0.0 && l2 > l1 + e && L > 0.0
    ensures x < 0.0 && y > -L
  {
    WithinThigh(x + e, y, l1);
    SquareGrows(l1 + e, l2);
    AboveFoot(x, y, e, l1, l2 * l2, L);
    if x >= 0.0 {
      BehindMeansBelow(x, y, e, L);
    }
  }

  lemma WithinThigh(x: real, y: real, r: real)
    requires x * x + y * y == r * r && r >= 0.0
    ensures -r <= x
  {
    SquareNonneg(y);
    if x < -r {
      SquareGrows(r, -x);
    }
  }

  lemma AboveFoot(x: real, y: real, e: real, l1: real, k: real, L: real)
    requires (x + e) * (x + e) + y * y == l1 * l1 && x * x + (y + L) * (y + L) == k
    requires e > 0.0 && k > (l1 + e) * (l1 + e) && L > 0.0 && x >= -l1 - e
    ensures y > -L
  {
    assert 2.0 * (e * x) == l1 * l1 - k - e * e + L * L + 2.0 * (L * y);
    if y <= -L {
      Products.Positive(L, -L - y, L * (-L - y));
      Products.Positive(e, x + l1 + e, e * (x + l1 + e));
      SquareNonneg(L);
    }
  }

  lemma BehindMeansBelow(x: real, y: real, e: real, L: real)
    requires x >= 0.0 && e > 0.0 && L > 0.0 && y * e + (x + e) * L <= 0.0
    ensures y <= -L
  {
    Products.Positive(x, L, x * L);
    Cancelled(y, -L, e);
  }

  lemma Cancelled(x: real, y: real, k: real)
    requires k > 0.0 && x * k <= y * k
    ensures x <= y
  {
    if x > y {
      Products.Strict(y, x, k, y * k, x * k);
    }
  }

  lemma MirroredBelow(B: Vec, L: real)
    requires B.x < 0.0 && B.y > -L
    ensures BelowKneeLine(Knees(B, Mirror(B)), Vec(0.0, -L))
  {
    Products.Positive(L + B.y, -B.x - B.x, (L + B.y) * (-B.x - B.x));
  }

  lemma StraightBelow(p: Params, L: real, B: Vec)
    requires Symmetric(p) && p.l5 > 0.0 && L > 0.0
    requires On(B, RearHip(p), p.l1) && On(B, Vec(0.0, -L), p.l2) && BehindLegLine(RearHip(p), Vec(0.0, -L), B)
    ensures B.x < 0.0 && BelowKneeLine(Knees(B, Mirror(B)), Vec(0.0, -L))
  {
    KneeBehind(B.x, B.y, p.l5 / 2.0, p.l1, p.l2, L);
    MirroredBelow(B, L);
  }

  /**
   On a symmetric linkage with long shins every straight pose that the inverse accepts has equal crank
   angles, and the forward map returns it exactly.
   */
  lemma StraightRoundTrip(m: Libm, p: Params, L: real)
    requires m.Exact() && Symmetric(p) && p.l5 > 0.0 && L > 0.0 && Ik(m, p, Pose(L, 0.0)).Some?
    ensures var q := Ik(m, p, Pose(L, 0.0)).value;
            q.phi1 == q.phi4 && Fk(m, p, q) == Some(Pose(L, 0.0))
  {
    StraightFoot(m, L);
    StraightKnees(m, p, L);
    var B := CircInt(m, RearHip(p), p.l1, Vec(0.0, -L), p.l2, true).value;
    RearKneeOf(m, p, L, B);
    StraightBelow(p, L, B);
    RoundTrip(m, p, Pose(L, 0.0));
  }

  // ---- the robot's legs ----

  /** Which straight leg lengths the robot's inverse accepts: from about 75 to about 346 millimetres. */
  lemma RobotAccepts(m: Libm, L: real)
    requires m.Exact() && L > 0.0
    ensures Ik(m, LEG_PARAMS, Pose(L, 0.0)).Some? <==> 0.0056 <= L * L <= 0.12
  {
    var v := Minus(Vec(0.0, -L), RearHip(LEG_PARAMS));
    StraightFoot(m, L);
    StraightKnees(m, LEG_PARAMS, L);
    NormSquare(m, v);
    Products.StrictlyPositive(L, L, L * L);
    ReachSquares(Norm(m, v), L * L);
  }

  lemma ReachSquares(d: real, k: real)
    requires d >= 0.0 && d * d == 0.0025 + k && k > 0.0
    ensures !OutOfReach(d, 0.130, 0.220) <==> 0.0056 <= k <= 0.12
  {
    if d < 0.09 { SquareGrows(d, 0.09); } else if d > 0.09 { SquareGrows(0.09, d); }
    if d < 0.35 { SquareGrows(d, 0.35); } else if d > 0.35 { SquareGrows(0.35, d); }
  }

  /** The robot commands straight legs: each length it can reach comes back exactly, from equal crank angles. */
  lemma RobotStraightRoundTrip(m: Libm, L: real)
    requires m.Exact() && L > 0.0 && 0.0056 <= L * L <= 0.12
    ensures Ik(m, LEG_PARAMS, Pose(L, 0.0)).Some?
    ensures var q := Ik(m, LEG_PARAMS, Pose(L, 0.0)).value;
            q.phi1 == q.phi4 && Fk(m, LEG_PARAMS, q) == Some(Pose(L, 0.0))
  {
    RobotAccepts(m, L);
    StraightRoundTrip(m, LEG_PARAMS, L);
  }

  lemma AboveKneesMisses(m: Libm, p: Params, pose: Pose, k: Knees, C: Vec)
    requires m.Exact() && C == FootOf(m, pose) && IkKnees(m, p, C) == Some(k) && !BelowKneeLine(k, C)
    ensures Ik(m, p, pose).Some? && Fk(m, p, Ik(m, p, pose).value) != Some(pose)
  {
    RoundTrip(m, p, pose);
  }

  lemma FoldedKnees(m: Libm, h: real)
    requires m.Exact() && h > 0.0 && h * h == 0.0384
    ensures IkKnees(m, LEG_PARAMS, Vec(0.0, 0.12 + h)) == Some(Knees(Vec(-0.1, 0.12), Vec(0.1, 0.12)))
  {
    KneeRecovered(m, Vec(-0.05, 0.0), 0.13, Vec(0.0, 0.12 + h), 0.22, Vec(-0.1, 0.12), true);
    KneeRecovered(m, Vec(0.05, 0.0), 0.13, Vec(0.0, 0.12 + h), 0.22, Vec(0.1, 0.12), false);
  }

  /** A robot leg folded upward: the inverse accepts it, and the forward map of its angles is another pose. */
  lemma RoundTripFails(m: Libm)
    requires m.Exact()
    ensures var pose := Pose(0.12 + m.sqrt(0.0384), m.atan2(0.0, -1.0));
            Ik(m, LEG_PARAMS, pose).Some? && Fk(m, LEG_PARAMS, Ik(m, LEG_PARAMS, pose).value) != Some(pose)
  {
    var h := m.sqrt(0.0384);
    var pose := Pose(0.12 + h, m.atan2(0.0, -1.0));
    SquareRoot(m, 0.0384, h);
    ArcTangent(m, 0.0, -1.0, 1.0, pose.thL);
    FoldedKnees(m, h);
    AboveKneesMisses(m, LEG_PARAMS, pose, Knees(Vec(-0.1, 0.12), Vec(0.1, 0.12)), Vec(0.0, 0.12 + h));
  }

  /** Equal crank angles with cosine −5/13 exist; there the robot's knees coincide and the forward map fails. */
  lemma KneesCoincide(m: Libm)
    requires m.Exact()
    ensures var phi := m.atan2(12.0, -5.0);
            m.cos(phi) == -5.0 / 13.0 && Fk(m, LEG_PARAMS, Angles(phi, phi)) == None
  {
    var phi := m.atan2(12.0, -5.0);
    ArcTangent(m, 12.0, -5.0, 13.0, phi);
    RobotLegsHangStraight(m, phi);
  }
}
