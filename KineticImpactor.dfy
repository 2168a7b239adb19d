/** The kinetic-impactor mission of backend/kinectic_impactor.py: a perfectly
    inelastic collision slows the asteroid, the slowdown is graded into a verdict,
    and the slowed asteroid is handed to the impact simulation. */
module KineticImpactor {
  import opened Results
  import opened RealMath
  import ImpactSimulation

  /** The density `diameter_m` assumes, in kg/m^3. */
  const AsteroidDensity: real := 3000.0
  /** The distance the mission passes to the impact simulation, in km. */
  const SimulationDistanceKm: real := 500.0

  /** `Asteroid`: its mass in kg and its velocity in m/s. */
  datatype Asteroid = Asteroid(massKg: real, velocityMs: real)

  /** The fields `KineticImpactor.__init__` stores. */
  datatype Mission = Mission(asteroid: Asteroid, impactorMassKg: real, impactorVelocityMs: real,
                             targetLat: real, targetLon: real)

  /** `Asteroid.diameter_m`: the diameter of a sphere of the asteroid's mass at
      density 3000, `(6 m / (pi * 3000)) ** (1/3)`. For a negative mass Python's
      `**` yields a complex number, which is `None` here. */
  function DiameterM(root: (real, int) -> real, massKg: real): (d: Option<real>)
    requires IsRoot(root)
    ensures d.Some? <==> 0.0 <= massKg
    ensures d.Some? ==> 0.0 <= d.value && Pow(d.value, 3) * Pi * AsteroidDensity == 6.0 * massKg
  {
    if massKg < 0.0 then None
    else
      var q := 6.0 * massKg / (Pi * AsteroidDensity);
      assert q * (Pi * AsteroidDensity) == 6.0 * massKg;
      Some(root(q, 3))
  }

  /** A heavier asteroid has a strictly larger diameter. */
  lemma DiameterIncreasing(root: (real, int) -> real, lighter: real, heavier: real)
    requires IsRoot(root)
    requires 0.0 <= lighter < heavier
    ensures DiameterM(root, lighter).value < DiameterM(root, heavier).value
  {
    var q1, q2 := 6.0 * lighter / (Pi * AsteroidDensity), 6.0 * heavier / (Pi * AsteroidDensity);
    assert 0.0 <= q1 < q2;
    RootStrictlyIncreasing(root, q1, q2, 3);
  }

  /** The asteroid's velocity after absorbing an impactor head-on
      (`v_final`); requires the division to be defined. */
  function FinalVelocity(m1: real, v1: real, m2: real, v2: real): (vf: real)
    requires m1 + m2 != 0.0
    ensures (m1 + m2) * vf == m1 * v1 - m2 * v2
  {
    (m1 * v1 - m2 * v2) / (m1 + m2)
  }

  /** `slowdown_pct`: the share of the initial speed that was removed, in percent. */
  function SlowdownPct(v1: real, vf: real): (s: real)
    requires v1 != 0.0
    ensures s * v1 == (v1 - Abs(vf)) * 100.0
    ensures 0.0 < v1 ==> s <= 100.0
    ensures s == 100.0 <==> vf == 0.0
  {
    (1.0 - Abs(vf) / v1) * 100.0
  }

  /** The four outcomes of the mission's threshold chain. */
  datatype Verdict = Deflected | PartiallyDeflected | WeakImpact | Failed {
    /** Better outcomes rank higher. */
    function Rank(): nat
    {
      match this
      case Failed => 0
      case WeakImpact => 1
      case PartiallyDeflected => 2
      case Deflected => 3
    }
  }

  /** The `if`/`elif` chain on `slowdown_pct`; each band holds its lower bound. */
  function Classify(slowdownPct: real): (v: Verdict)
    ensures v == Deflected <==> 99.9 <= slowdownPct
    ensures v == PartiallyDeflected <==> 80.0 <= slowdownPct < 99.9
    ensures v == WeakImpact <==> 50.0 <= slowdownPct < 80.0
    ensures v == Failed <==> slowdownPct < 50.0
  {
    if slowdownPct >= 99.9 then Deflected
    else if slowdownPct >= 80.0 then PartiallyDeflected
    else if slowdownPct >= 50.0 then WeakImpact
    else Failed
  }

  /** A larger slowdown never earns a worse verdict. */
  lemma ClassifyMonotone(s1: real, s2: real)
    requires s1 <= s2
    ensures Classify(s1).Rank() <= Classify(s2).Rank()
  {
  }

  /** The dictionary `intercept_asteroid` returns. */
  datatype MissionRecord = MissionRecord(
    asteroidMassKg: real, asteroidVelocityMs: real,
    asteroidFinalVelocityMs: real, asteroidSlowdownPct: real,
    impactorMassKg: real, impactorVelocityMs: real,
    impactResult: Option<ImpactSimulation.ImpactReport>)

  /** What a mission produces: the returned record and the verdict the report prints. */
  datatype Interception = Interception(record: MissionRecord, verdict: Verdict)

  /** The guarded call of `run_custom_impact` with the slowed asteroid; an
      exception there, or a diameter that is not real, leaves `None`. */
  function SimulateImpact(est: ImpactSimulation.Estimations, root: (real, int) -> real, mission: Mission, vf: real)
    : (r: Option<ImpactSimulation.ImpactReport>)
    requires IsRoot(root)
    ensures r.Some? <==>
      0.0 <= mission.asteroid.massKg &&
      ImpactSimulation.RunCustomImpact(est, DiameterM(root, mission.asteroid.massKg).value, vf / 1000.0,
                                       mission.targetLat, mission.targetLon, SimulationDistanceKm).Ok?
    ensures r.Some? ==>
      r.value.velocityKms * 1000.0 == vf &&
      r.value.diameterM == DiameterM(root, mission.asteroid.massKg).value &&
      ImpactSimulation.RunCustomImpact(est, r.value.diameterM, r.value.velocityKms,
                                       mission.targetLat, mission.targetLon, SimulationDistanceKm) == Ok(r.value)
  {
    match DiameterM(root, mission.asteroid.massKg)
    case None => None
    case Some(d) =>
      match ImpactSimulation.RunCustomImpact(est, d, vf / 1000.0, mission.targetLat, mission.targetLon, SimulationDistanceKm)
      case Ok(report) => Some(report)
      case Err(_) => None
  }

  /** `intercept_asteroid`. The two divisions raise when the total mass or the
      asteroid's velocity is zero; nothing catches those. */
  function InterceptAsteroid(est: ImpactSimulation.Estimations, root: (real, int) -> real, mission: Mission)
    : (r: Result<Interception>)
    requires IsRoot(root)
    ensures var m1, v1, m2 := mission.asteroid.massKg, mission.asteroid.velocityMs, mission.impactorMassKg;
            r.Err? <==> m1 + m2 == 0.0 || v1 == 0.0
    ensures r.Err? ==> r.message == DivisionByZero
    ensures r.Ok? ==>
      var rec := r.value.record;
      var m1, v1 := mission.asteroid.massKg, mission.asteroid.velocityMs;
      var m2, v2 := mission.impactorMassKg, mission.impactorVelocityMs;
      var vf := rec.asteroidFinalVelocityMs;
      rec.asteroidMassKg == m1 && rec.asteroidVelocityMs == v1 &&
      rec.impactorMassKg == m2 && rec.impactorVelocityMs == v2 &&
      (m1 + m2) * vf == m1 * v1 - m2 * v2 &&
      rec.asteroidSlowdownPct * v1 == (v1 - Abs(vf)) * 100.0 &&
      r.value.verdict == Classify(rec.asteroidSlowdownPct) &&
      rec.impactResult == SimulateImpact(est, root, mission, vf)
  {
    var m1, v1 := mission.asteroid.massKg, mission.asteroid.velocityMs;
    var m2, v2 := mission.impactorMassKg, mission.impactorVelocityMs;
    if m1 + m2 == 0.0 || v1 == 0.0 then Err(DivisionByZero)
    else
      var vf := FinalVelocity(m1, v1, m2, v2);
      var slowdown := SlowdownPct(v1, vf);
      var record := MissionRecord(m1, v1, vf, slowdown, m2, v2, SimulateImpact(est, root, mission, vf));
      Ok(Interception(record, Classify(slowdown)))
  }

  /** The slowdown is 100% exactly when the two momenta cancel, and that is full
      deflection; for an asteroid moving in the positive direction it never exceeds 100%. */
  lemma FullStopIffMomentaCancel(est: ImpactSimulation.Estimations, root: (real, int) -> real, mission: Mission)
    requires IsRoot(root)
    requires InterceptAsteroid(est, root, mission).Ok?
    ensures var i := InterceptAsteroid(est, root, mission).value;
            var m1, v1 := mission.asteroid.massKg, mission.asteroid.velocityMs;
            var m2, v2 := mission.impactorMassKg, mission.impactorVelocityMs;
            (i.record.asteroidSlowdownPct == 100.0 <==> m1 * v1 == m2 * v2) &&
            (m1 * v1 == m2 * v2 ==> i.verdict == Deflected) &&
            (0.0 < v1 ==> i.record.asteroidSlowdownPct <= 100.0)
  {
    var m1, v1 := mission.asteroid.massKg, mission.asteroid.velocityMs;
    var m2, v2 := mission.impactorMassKg, mission.impactorVelocityMs;
    var vf := FinalVelocity(m1, v1, m2, v2);
    assert vf == 0.0 <==> m1 * v1 - m2 * v2 == 0.0 by {
      assert (m1 + m2) * vf == m1 * v1 - m2 * v2;
      if vf != 0.0 {
        assert (m1 + m2) * vf != 0.0;
      }
    }
  }

  /** A massless impactor changes nothing: the asteroid keeps its velocity, the
      slowdown is zero and the mission fails. */
  lemma MasslessImpactorFails(est: ImpactSimulation.Estimations, root: (real, int) -> real, mission: Mission)
    requires IsRoot(root)
    requires mission.impactorMassKg == 0.0 && mission.asteroid.massKg != 0.0 && 0.0 < mission.asteroid.velocityMs
    ensures InterceptAsteroid(est, root, mission).Ok?
    ensures var i := InterceptAsteroid(est, root, mission).value;
            i.record.asteroidFinalVelocityMs == mission.asteroid.velocityMs &&
            i.record.asteroidSlowdownPct == 0.0 && i.verdict == Failed
  {
    var m1, v1 := mission.asteroid.massKg, mission.asteroid.velocityMs;
    var vf := FinalVelocity(m1, v1, 0.0, mission.impactorVelocityMs);
    assert m1 * vf == m1 * v1;
    assert vf == v1;
  }
}
