/** The tsunami chain of backend/core/tsunami_model.py: transient crater from the
    projectile, initial wave height from the crater, height at a distance from the
    impact point, and height at the shore. */
module TsunamiModel {
  import opened Results
  import opened RealMath

  /** Constants of the Ward and Asphaug transient-crater law. */
  const CraterCoefficient: real := 1.161
  const Gravity: real := 9.81

  /** The tuple `estimate_transient_crater` returns. */
  datatype TransientCrater = TransientCrater(diameterM: real, radiusM: real, averageDepthM: real)

  /** The transient-crater law `1.161 * D**0.78 * v**0.44 * (rho/1000)**0.26 * 9.81**-0.22`
      with every exponent raised to the common denominator 50 (0.78 = 39/50,
      0.44 = 22/50, 0.26 = 13/50, -0.22 = -11/50): t solves this relation. */
  ghost predicate CraterLaw(t: real, diameterM: real, velocityMs: real, density: real)
  {
    0.0 <= t &&
    Pow(t, 50) * Pow(Gravity, 11)
      == Pow(CraterCoefficient, 50) * (Pow(diameterM, 39) * Pow(velocityMs, 22) * Pow(density / 1000.0, 13))
  }

  /** The projectile's part of the law, raised to the 50th power. */
  function ProjectileTerm(diameterM: real, velocityMs: real, density: real): real
  {
    Pow(diameterM, 39) * Pow(velocityMs, 22) * Pow(density / 1000.0, 13)
  }

  /** The quantity whose 50th root is the transient-crater diameter. */
  function CraterRadicand(diameterM: real, velocityMs: real, density: real): real
  {
    Pow(CraterCoefficient, 50) * ProjectileTerm(diameterM, velocityMs, density) / Pow(Gravity, 11)
  }

  lemma RadicandNonNegative(diameterM: real, velocityMs: real, density: real)
    requires 0.0 <= diameterM && 0.0 <= velocityMs && 0.0 <= density
    ensures 0.0 <= CraterRadicand(diameterM, velocityMs, density)
  {
    PowPositive(CraterCoefficient, 50);
    PowPositive(Gravity, 11);
    PowNonNegative(diameterM, 39);
    PowNonNegative(velocityMs, 22);
    PowNonNegative(density / 1000.0, 13);
    var a, b, c, d := Pow(CraterCoefficient, 50), Pow(diameterM, 39), Pow(velocityMs, 22), Pow(density / 1000.0, 13);
    assert 0.0 <= b * c;
    assert 0.0 <= b * c * d;
    assert 0.0 <= a * (b * c * d);
  }

  /** `estimate_transient_crater` (a negative argument would make Python's `**`
      complex, so the model's domain is the non-negative reals). */
  function EstimateTransientCrater(root: (real, int) -> real, diameterM: real, velocityMs: real, density: real)
    : (c: TransientCrater)
    requires IsRoot(root)
    requires 0.0 <= diameterM && 0.0 <= velocityMs && 0.0 <= density
    ensures CraterLaw(c.diameterM, diameterM, velocityMs, density)
    ensures c.radiusM * 2.0 == c.diameterM
    ensures c.averageDepthM * 4.0 == c.diameterM && c.averageDepthM * 2.0 == c.radiusM
  {
    RadicandNonNegative(diameterM, velocityMs, density);
    var t := root(CraterRadicand(diameterM, velocityMs, density), 50);
    PowPositive(Gravity, 11);
    TransientCrater(t, t / 2.0, 0.25 * t)
  }

  /** `estimate_initial_tsunami_height`. */
  function EstimateInitialTsunamiHeight(averageCraterDepthM: real): (h: real)
    ensures h * 4.0 == averageCraterDepthM
  {
    0.25 * averageCraterDepthM
  }

  /** The ratio raised to 0.5 in `variable_tsunami_height` has a real square root. */
  predicate DistanceInDomain(radiusM: real, distanceKm: real)
  {
    distanceKm == 0.0 || 0.0 <= radiusM / (distanceKm * 1000.0)
  }

  /** `variable_tsunami_height`: `h0 * (r / (distance_km * 1000)) ** 0.5`; a zero
      distance divides by zero. */
  function VariableTsunamiHeight(root: (real, int) -> real, initialHeightM: real, radiusM: real, distanceKm: real)
    : (h: Result<real>)
    requires IsRoot(root)
    requires DistanceInDomain(radiusM, distanceKm)
    ensures h.Err? <==> distanceKm == 0.0
    ensures h.Err? ==> h.message == DivisionByZero
    ensures h.Ok? ==> h.value * h.value * (distanceKm * 1000.0) == initialHeightM * initialHeightM * radiusM
    ensures h.Ok? ==> (0.0 <= h.value <==> 0.0 <= initialHeightM || radiusM == 0.0)
  {
    if distanceKm * 1000.0 == 0.0 then Err(DivisionByZero)
    else
      var q := radiusM / (distanceKm * 1000.0);
      var s := root(q, 2);
      PowSquare(s);
      assert s * s == q;
      assert (initialHeightM * s) * (initialHeightM * s) == initialHeightM * initialHeightM * q;
      assert q * (distanceKm * 1000.0) == radiusM;
      assert s == 0.0 ==> q == 0.0;
      Ok(initialHeightM * s)
  }

  /** The ratio raised to 0.25 in `shore_tsunami_height` has a real fourth root. */
  predicate DepthsInDomain(averageOceanicDepth: real, shoreDepth: real)
  {
    shoreDepth == 0.0 || 0.0 <= averageOceanicDepth / shoreDepth
  }

  /** `shore_tsunami_height`: `h * (average_depth / shore_depth) ** 0.25`; a zero
      shore depth divides by zero. */
  function ShoreTsunamiHeight(root: (real, int) -> real, heightM: real, averageOceanicDepth: real, shoreDepth: real)
    : (hs: Result<real>)
    requires IsRoot(root)
    requires DepthsInDomain(averageOceanicDepth, shoreDepth)
    ensures hs.Err? <==> shoreDepth == 0.0
    ensures hs.Err? ==> hs.message == DivisionByZero
    ensures hs.Ok? ==> Pow(hs.value, 4) * shoreDepth == Pow(heightM, 4) * averageOceanicDepth
    ensures hs.Ok? ==> (0.0 <= hs.value <==> 0.0 <= heightM || averageOceanicDepth == 0.0)
  {
    if shoreDepth == 0.0 then Err(DivisionByZero)
    else
      var q := averageOceanicDepth / shoreDepth;
      var s := root(q, 4);
      PowFourth(s);
      PowFourth(heightM);
      PowFourth(heightM * s);
      PowProduct(heightM, s, 4);
      assert Pow(s, 4) == q;
      assert q * shoreDepth == averageOceanicDepth;
      assert s == 0.0 ==> q == 0.0;
      Ok(heightM * s)
  }

  // ---- Properties of the chain ----

  /** Crater radius is half, and average depth a quarter, of the crater diameter;
      the initial wave is a quarter of that depth, so D/16 over the chain. */
  lemma InitialHeightIsSixteenthOfCrater(root: (real, int) -> real, diameterM: real, velocityMs: real, density: real)
    requires IsRoot(root)
    requires 0.0 <= diameterM && 0.0 <= velocityMs && 0.0 <= density
    ensures var c := EstimateTransientCrater(root, diameterM, velocityMs, density);
            EstimateInitialTsunamiHeight(c.averageDepthM) * 16.0 == c.diameterM
  {
  }

  /** The transient crater is positive for positive inputs and zero when any input is zero. */
  lemma CraterPositive(root: (real, int) -> real, diameterM: real, velocityMs: real, density: real)
    requires IsRoot(root)
    requires 0.0 <= diameterM && 0.0 <= velocityMs && 0.0 <= density
    ensures var c := EstimateTransientCrater(root, diameterM, velocityMs, density);
            (0.0 < c.diameterM <==> 0.0 < diameterM && 0.0 < velocityMs && 0.0 < density)
  {
    var c := EstimateTransientCrater(root, diameterM, velocityMs, density);
    PowPositive(Gravity, 11);
    PowPositive(CraterCoefficient, 50);
    if 0.0 < diameterM && 0.0 < velocityMs && 0.0 < density {
      PowPositive(diameterM, 39);
      PowPositive(velocityMs, 22);
      PowPositive(density / 1000.0, 13);
      var a, b, cc, d := Pow(CraterCoefficient, 50), Pow(diameterM, 39), Pow(velocityMs, 22), Pow(density / 1000.0, 13);
      assert 0.0 < b * cc;
      assert 0.0 < b * cc * d;
      assert 0.0 < a * (b * cc * d);
    } else {
      assert Pow(diameterM, 39) == 0.0 || Pow(velocityMs, 22) == 0.0 || Pow(density / 1000.0, 13) == 0.0 by {
        if diameterM == 0.0 { PowZero(39); }
        else if velocityMs == 0.0 { PowZero(22); }
        else { PowZero(13); }
      }
      var t := c.diameterM;
      assert Pow(t, 50) * Pow(Gravity, 11) == 0.0;
      assert Pow(t, 50) == 0.0;
      if 0.0 < t {
        PowPositive(t, 50);
      }
    }
  }

  /** The radicand grows strictly with each argument when all are positive. */
  lemma RadicandIncreasing(d1: real, v1: real, rho1: real, d2: real, v2: real, rho2: real)
    requires 0.0 < d1 <= d2 && 0.0 < v1 <= v2 && 0.0 < rho1 <= rho2
    requires d1 < d2 || v1 < v2 || rho1 < rho2
    ensures 0.0 <= CraterRadicand(d1, v1, rho1) < CraterRadicand(d2, v2, rho2)
  {
    ProjectileTermIncreasing(d1, v1, rho1, d2, v2, rho2);
    RadicandNonNegative(d1, v1, rho1);
    ScaledStrictlyIncreasing(ProjectileTerm(d1, v1, rho1), ProjectileTerm(d2, v2, rho2));
  }

  lemma ProjectileTermIncreasing(d1: real, v1: real, rho1: real, d2: real, v2: real, rho2: real)
    requires 0.0 < d1 <= d2 && 0.0 < v1 <= v2 && 0.0 < rho1 <= rho2
    requires d1 < d2 || v1 < v2 || rho1 < rho2
    ensures ProjectileTerm(d1, v1, rho1) < ProjectileTerm(d2, v2, rho2)
  {
    PowPositive(d1, 39);
    PowPositive(v1, 22);
    PowPositive(rho1 / 1000.0, 13);
    PowIncreasing(d1, d2, 39);
    PowIncreasing(v1, v2, 22);
    PowIncreasing(rho1 / 1000.0, rho2 / 1000.0, 13);
    if d1 < d2 { PowStrictlyIncreasing(d1, d2, 39); }
    if v1 < v2 { PowStrictlyIncreasing(v1, v2, 22); }
    if rho1 < rho2 { PowStrictlyIncreasing(rho1 / 1000.0, rho2 / 1000.0, 13); }
    var b1, c1, e1 := Pow(d1, 39), Pow(v1, 22), Pow(rho1 / 1000.0, 13);
    var b2, c2, e2 := Pow(d2, 39), Pow(v2, 22), Pow(rho2 / 1000.0, 13);
    MulIncreasing(b1, c1, b2, c2);
    if d1 < d2 || v1 < v2 {
      MulStrictlyIncreasing(b1, c1, b2, c2);
    }
    MulStrictlyIncreasing(b1 * c1, e1, b2 * c2, e2);
  }

  /** Multiplying by the law's positive constant factor keeps a strict order. */
  lemma ScaledStrictlyIncreasing(p1: real, p2: real)
    requires p1 < p2
    ensures Pow(CraterCoefficient, 50) * p1 / Pow(Gravity, 11) < Pow(CraterCoefficient, 50) * p2 / Pow(Gravity, 11)
  {
    PowPositive(CraterCoefficient, 50);
    PowPositive(Gravity, 11);
    var a, g := Pow(CraterCoefficient, 50), Pow(Gravity, 11);
    assert a * p1 < a * p2 by { assert a * (p2 - p1) > 0.0; }
    var k := 1.0 / g;
    assert 0.0 < k;
    assert a * p1 * k < a * p2 * k by { assert (a * p2 - a * p1) * k > 0.0; }
  }

  /** The transient crater grows strictly with each of diameter, velocity and
      density: every exponent of the law is positive. */
  lemma CraterIncreasing(root: (real, int) -> real, d1: real, v1: real, rho1: real, d2: real, v2: real, rho2: real)
    requires IsRoot(root)
    requires 0.0 < d1 <= d2 && 0.0 < v1 <= v2 && 0.0 < rho1 <= rho2
    requires d1 < d2 || v1 < v2 || rho1 < rho2
    ensures EstimateTransientCrater(root, d1, v1, rho1).diameterM < EstimateTransientCrater(root, d2, v2, rho2).diameterM
  {
    RadicandIncreasing(d1, v1, rho1, d2, v2, rho2);
    RootStrictlyIncreasing(root, CraterRadicand(d1, v1, rho1), CraterRadicand(d2, v2, rho2), 50);
  }

  /** At a distance equal to the crater radius the wave keeps its initial height. */
  lemma HeightAtCraterRadius(root: (real, int) -> real, initialHeightM: real, radiusM: real, distanceKm: real)
    requires IsRoot(root)
    requires 0.0 < radiusM && distanceKm * 1000.0 == radiusM
    ensures VariableTsunamiHeight(root, initialHeightM, radiusM, distanceKm) == Ok(initialHeightM)
  {
    assert radiusM / (distanceKm * 1000.0) == 1.0;
    RootOfOne(root, 2);
  }

  /** At a positive distance the height is the initial height times the
      square root of the radius-to-distance ratio. */
  lemma HeightAtPositiveDistance(root: (real, int) -> real, initialHeightM: real, radiusM: real, distanceKm: real)
    requires IsRoot(root)
    requires 0.0 <= radiusM && 0.0 < distanceKm
    ensures VariableTsunamiHeight(root, initialHeightM, radiusM, distanceKm).Ok?
    ensures VariableTsunamiHeight(root, initialHeightM, radiusM, distanceKm).value
              == initialHeightM * root(radiusM / (distanceKm * 1000.0), 2)
  {
  }

  /** The radius-to-distance ratio shrinks as the distance grows. */
  lemma RatioDecreasing(radiusM: real, near: real, far: real)
    requires 0.0 < radiusM && 0.0 < near < far
    ensures 0.0 <= radiusM / (far * 1000.0) < radiusM / (near * 1000.0)
  {
    var qNear, qFar := radiusM / (near * 1000.0), radiusM / (far * 1000.0);
    assert qFar * (far * 1000.0) == radiusM;
    assert qNear * (near * 1000.0) == radiusM;
    MulStrictlyIncreasing(qNear, near * 1000.0, qNear, far * 1000.0);
    CancelPositive(qFar, qNear, far * 1000.0);
  }

  /** Farther from the impact the wave is strictly lower. */
  lemma HeightDecreasesWithDistance(root: (real, int) -> real, initialHeightM: real, radiusM: real, near: real, far: real)
    requires IsRoot(root)
    requires 0.0 < initialHeightM && 0.0 < radiusM && 0.0 < near < far
    ensures VariableTsunamiHeight(root, initialHeightM, radiusM, far).value
          < VariableTsunamiHeight(root, initialHeightM, radiusM, near).value
  {
    var qNear, qFar := radiusM / (near * 1000.0), radiusM / (far * 1000.0);
    RatioDecreasing(radiusM, near, far);
    RootStrictlyIncreasing(root, qFar, qNear, 2);
    var sNear, sFar := root(qNear, 2), root(qFar, 2);
    assert 0.0 <= sFar < sNear;
    var hNear, hFar := initialHeightM * sNear, initialHeightM * sFar;
    assert hFar < hNear;
    HeightAtPositiveDistance(root, initialHeightM, radiusM, near);
    HeightAtPositiveDistance(root, initialHeightM, radiusM, far);
    assert VariableTsunamiHeight(root, initialHeightM, radiusM, near).value == hNear;
    assert VariableTsunamiHeight(root, initialHeightM, radiusM, far).value == hFar;
  }

  /** A wave moving from deeper water onto a shallower shore does not shrink. */
  lemma ShoreAtLeastOpenOcean(root: (real, int) -> real, heightM: real, averageOceanicDepth: real, shoreDepth: real)
    requires IsRoot(root)
    requires 0.0 <= heightM && 0.0 < shoreDepth <= averageOceanicDepth
    ensures heightM <= ShoreTsunamiHeight(root, heightM, averageOceanicDepth, shoreDepth).value
  {
    var q := averageOceanicDepth / shoreDepth;
    assert 1.0 <= q by { assert q * shoreDepth == averageOceanicDepth; }
    RootOfOne(root, 4);
    if 1.0 < q {
      RootStrictlyIncreasing(root, 1.0, q, 4);
    }
    var s := root(q, 4);
    assert heightM * 1.0 <= heightM * s by { assert heightM * (s - 1.0) >= 0.0; }
  }

  /** Equal depths leave the wave height unchanged. */
  lemma ShoreEqualDepths(root: (real, int) -> real, heightM: real, depth: real)
    requires IsRoot(root)
    requires depth != 0.0
    ensures ShoreTsunamiHeight(root, heightM, depth, depth) == Ok(heightM)
  {
    assert depth / depth == 1.0;
    RootOfOne(root, 4);
  }
}
