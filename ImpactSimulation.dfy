/** `ImpactSimulation` of backend/impact_simulation.py: how `run_custom_impact`
    and `run_impact_simulation` compose the estimates of their collaborators
    into one result record. */
module ImpactSimulation {
  import opened Results
  import opened RealMath
  import TsunamiModel

  /** Arguments the simulation passes down the tsunami chain. */
  const ProjectileDensity: real := 3000.0
  const AverageOceanicDepthM: real := 4000.0
  const ShoreDepthM: real := 200.0
  /** The default `distance_km` of both entry points. */
  const DefaultDistanceKm: real := 500.0
  const MetresPerKilometre: real := 1000.0

  /** The `AsteroidEstimations` collaborator, one field per method the simulation
      calls. Its module is not part of this model: each call either returns a
      value or raises, which is `Err`. `impactEnergy` gives the `"energy_megatons"`
      entry of `estimate_impact_energy`; `oceanOrLand` gives `(is_ocean, elevation)`. */
  datatype Estimations = Estimations(
    impactEnergy: (real, real) -> Result<real>,
    oceanOrLand: (real, real) -> Result<(bool, real)>,
    craterSize: real -> Result<real>,
    earthquakeMagnitude: real -> Result<real>,
    transientCrater: (real, real, real) -> Result<TsunamiModel.TransientCrater>,
    initialTsunamiHeight: real -> Result<real>,
    variableTsunamiHeight: (real, real, real) -> Result<real>,
    shoreTsunamiHeight: (real, real, real) -> Result<real>)

  /** The `tsunami` dictionary. `height500kmM` is the `"height_500km_m"` entry,
      which holds the height at whatever `distance_km` was passed. */
  datatype Tsunami = Tsunami(transientCraterDiameterM: real, initialHeightM: real,
                             height500kmM: real, shoreHeightM: real)

  /** The dictionary `run_custom_impact` returns. */
  datatype ImpactReport = ImpactReport(
    diameterM: real, velocityKms: real, energyMegatons: real,
    surfaceType: string, elevationM: Option<real>,
    craterAreaKm2: real, earthquakeMagnitude: real,
    tsunami: Option<Tsunami>)

  /** What the guarded `is_ocean_or_land` call leaves behind. */
  datatype Surface = Surface(isOcean: bool, surfaceType: string, elevationM: Option<real>)

  predicate StartsWith(s: string, prefix: string)
  {
    |prefix| <= |s| && s[..|prefix|] == prefix
  }

  /** The collaborator classified the point and found ocean. */
  predicate ClassifiedOcean(est: Estimations, lat: real, lon: real)
  {
    est.oceanOrLand(lat, lon).Ok? && est.oceanOrLand(lat, lon).value.0
  }

  /** The try/except around `is_ocean_or_land`: on an exception the surface is
      `"Unknown (<message>)"`, there is no elevation and the point counts as land. */
  function ClassifySurface(est: Estimations, lat: real, lon: real): (s: Surface)
    ensures s.isOcean <==> ClassifiedOcean(est, lat, lon)
    ensures s.surfaceType == "Ocean" <==> s.isOcean
    ensures s.surfaceType == "Land" <==> est.oceanOrLand(lat, lon).Ok? && !s.isOcean
    ensures StartsWith(s.surfaceType, "Unknown") <==> est.oceanOrLand(lat, lon).Err?
    ensures s.elevationM.Some? <==> est.oceanOrLand(lat, lon).Ok?
    ensures s.elevationM.Some? ==> s.elevationM.value == est.oceanOrLand(lat, lon).value.1
  {
    match est.oceanOrLand(lat, lon)
    case Ok((isOcean, elevation)) =>
      Surface(isOcean, if isOcean then "Ocean" else "Land", Some(elevation))
    case Err(message) =>
      var text := "Unknown (" + message + ")";
      assert text[..7] == "Unknown";
      Surface(false, text, None)
  }

  /** The `if is_ocean` block: the four tsunami estimates, each fed the previous one. */
  function TsunamiChain(est: Estimations, diameterM: real, velocityKms: real, distanceKm: real): (r: Result<Tsunami>)
    ensures r.Ok? <==>
      var crater := est.transientCrater(diameterM, velocityKms * MetresPerKilometre, ProjectileDensity);
      crater.Ok? &&
      var initial := est.initialTsunamiHeight(crater.value.averageDepthM);
      initial.Ok? &&
      var atDistance := est.variableTsunamiHeight(initial.value, crater.value.radiusM, distanceKm);
      atDistance.Ok? &&
      est.shoreTsunamiHeight(atDistance.value, AverageOceanicDepthM, ShoreDepthM).Ok?
    ensures var crater := est.transientCrater(diameterM, velocityKms * MetresPerKilometre, ProjectileDensity);
      crater.Err? ==> r == Err(crater.message)
    ensures var crater := est.transientCrater(diameterM, velocityKms * MetresPerKilometre, ProjectileDensity);
      crater.Ok? ==>
      var initial := est.initialTsunamiHeight(crater.value.averageDepthM);
      initial.Err? ==> r == Err(initial.message)
    ensures var crater := est.transientCrater(diameterM, velocityKms * MetresPerKilometre, ProjectileDensity);
      crater.Ok? ==>
      var initial := est.initialTsunamiHeight(crater.value.averageDepthM);
      initial.Ok? ==>
      var atDistance := est.variableTsunamiHeight(initial.value, crater.value.radiusM, distanceKm);
      atDistance.Err? ==> r == Err(atDistance.message)
    ensures var crater := est.transientCrater(diameterM, velocityKms * MetresPerKilometre, ProjectileDensity);
      crater.Ok? ==>
      var initial := est.initialTsunamiHeight(crater.value.averageDepthM);
      initial.Ok? ==>
      var atDistance := est.variableTsunamiHeight(initial.value, crater.value.radiusM, distanceKm);
      atDistance.Ok? ==>
      var atShore := est.shoreTsunamiHeight(atDistance.value, AverageOceanicDepthM, ShoreDepthM);
      atShore.Err? ==> r == Err(atShore.message)
    ensures r.Ok? ==>
      var t := r.value;
      var crater := est.transientCrater(diameterM, velocityKms * MetresPerKilometre, ProjectileDensity).value;
      t.transientCraterDiameterM == crater.diameterM &&
      est.initialTsunamiHeight(crater.averageDepthM) == Ok(t.initialHeightM) &&
      est.variableTsunamiHeight(t.initialHeightM, crater.radiusM, distanceKm) == Ok(t.height500kmM) &&
      est.shoreTsunamiHeight(t.height500kmM, AverageOceanicDepthM, ShoreDepthM) == Ok(t.shoreHeightM)
  {
    var crater :- est.transientCrater(diameterM, velocityKms * MetresPerKilometre, ProjectileDensity);
    var initial :- est.initialTsunamiHeight(crater.averageDepthM);
    var atDistance :- est.variableTsunamiHeight(initial, crater.radiusM, distanceKm);
    var atShore :- est.shoreTsunamiHeight(atDistance, AverageOceanicDepthM, ShoreDepthM);
    Ok(Tsunami(crater.diameterM, initial, atDistance, atShore))
  }

  /** `run_custom_impact`. An exception of any estimate except the ocean/land
      classification propagates to the caller. */
  function RunCustomImpact(est: Estimations, diameterM: real, velocityKms: real, lat: real, lon: real,
                           distanceKm: real := DefaultDistanceKm)
    : (r: Result<ImpactReport>)
    ensures est.impactEnergy(diameterM, velocityKms).Err? ==> r == Err(est.impactEnergy(diameterM, velocityKms).message)
    ensures var energy := est.impactEnergy(diameterM, velocityKms);
      energy.Ok? && est.craterSize(energy.value).Err? ==> r == Err(est.craterSize(energy.value).message)
    ensures var energy := est.impactEnergy(diameterM, velocityKms);
      energy.Ok? && est.craterSize(energy.value).Ok? && est.earthquakeMagnitude(energy.value).Err? ==>
      r == Err(est.earthquakeMagnitude(energy.value).message)
    ensures var energy := est.impactEnergy(diameterM, velocityKms);
      var chain := TsunamiChain(est, diameterM, velocityKms, distanceKm);
      (energy.Ok? && est.craterSize(energy.value).Ok? && est.earthquakeMagnitude(energy.value).Ok? &&
      ClassifiedOcean(est, lat, lon) && chain.Err?) ==> r == Err(chain.message)
    ensures r.Err? <==>
      var energy := est.impactEnergy(diameterM, velocityKms);
      energy.Err? || est.craterSize(energy.value).Err? || est.earthquakeMagnitude(energy.value).Err? ||
      (ClassifiedOcean(est, lat, lon) && TsunamiChain(est, diameterM, velocityKms, distanceKm).Err?)
    ensures r.Ok? ==> r.value.diameterM == diameterM && r.value.velocityKms == velocityKms
    ensures r.Ok? ==>
      var energy := r.value.energyMegatons;
      est.impactEnergy(diameterM, velocityKms) == Ok(energy) &&
      est.craterSize(energy) == Ok(r.value.craterAreaKm2) &&
      est.earthquakeMagnitude(energy) == Ok(r.value.earthquakeMagnitude)
    ensures r.Ok? ==>
      var surface := ClassifySurface(est, lat, lon);
      r.value.surfaceType == surface.surfaceType && r.value.elevationM == surface.elevationM
    ensures r.Ok? ==> (r.value.tsunami.Some? <==> ClassifiedOcean(est, lat, lon))
    ensures r.Ok? && r.value.tsunami.Some? ==>
      TsunamiChain(est, diameterM, velocityKms, distanceKm) == Ok(r.value.tsunami.value)
  {
    var energy :- est.impactEnergy(diameterM, velocityKms);
    var surface := ClassifySurface(est, lat, lon);
    var craterArea :- est.craterSize(energy);
    var magnitude :- est.earthquakeMagnitude(energy);
    var tsunami :- if surface.isOcean then
                     var t :- TsunamiChain(est, diameterM, velocityKms, distanceKm); Ok(Some(t))
                   else Ok(None);
    Ok(ImpactReport(diameterM, velocityKms, energy, surface.surfaceType, surface.elevationM,
                    craterArea, magnitude, tsunami))
  }

  /** Tsunami data appear exactly for ocean impacts, and the surface reads
      "Ocean" exactly then. */
  lemma TsunamiOnlyForOcean(est: Estimations, diameterM: real, velocityKms: real, lat: real, lon: real, distanceKm: real)
    requires RunCustomImpact(est, diameterM, velocityKms, lat, lon, distanceKm).Ok?
    ensures var report := RunCustomImpact(est, diameterM, velocityKms, lat, lon, distanceKm).value;
            (report.tsunami.Some? <==> report.surfaceType == "Ocean") &&
            (report.tsunami.None? <==> report.surfaceType == "Land" || StartsWith(report.surfaceType, "Unknown"))
  {
  }

  /** A failed classification degrades to an unknown land surface with no tsunami. */
  lemma ClassificationFailureFallsBack(est: Estimations, diameterM: real, velocityKms: real, lat: real, lon: real, distanceKm: real)
    requires est.oceanOrLand(lat, lon).Err?
    requires RunCustomImpact(est, diameterM, velocityKms, lat, lon, distanceKm).Ok?
    ensures var report := RunCustomImpact(est, diameterM, velocityKms, lat, lon, distanceKm).value;
            report.surfaceType == "Unknown (" + est.oceanOrLand(lat, lon).message + ")" &&
            report.elevationM.None? && report.tsunami.None?
  {
  }

  // ---- When the collaborator's tsunami estimates are those of tsunami_model.py ----

  /** The collaborator's four tsunami methods agree with the functions of
      backend/core/tsunami_model.py wherever those are defined. */
  ghost predicate FollowsTsunamiModel(est: Estimations, root: (real, int) -> real)
  {
    IsRoot(root) &&
    (forall d, v, rho :: 0.0 <= d && 0.0 <= v && 0.0 <= rho ==>
       est.transientCrater(d, v, rho) == Ok(TsunamiModel.EstimateTransientCrater(root, d, v, rho))) &&
    (forall depth :: est.initialTsunamiHeight(depth) == Ok(TsunamiModel.EstimateInitialTsunamiHeight(depth))) &&
    (forall h0, r, dist :: TsunamiModel.DistanceInDomain(r, dist) ==>
       est.variableTsunamiHeight(h0, r, dist) == TsunamiModel.VariableTsunamiHeight(root, h0, r, dist)) &&
    (forall h, avg, shore :: TsunamiModel.DepthsInDomain(avg, shore) ==>
       est.shoreTsunamiHeight(h, avg, shore) == TsunamiModel.ShoreTsunamiHeight(root, h, avg, shore))
  }

  /** With the tsunami model of tsunami_model.py, the chain succeeds exactly at a
      non-zero distance, the initial wave is a sixteenth of the transient crater,
      heights are non-negative and the wave reaching the 200 m shore from the
      4000 m ocean is at least the wave at the given distance. */
  lemma TsunamiChainWithModel(est: Estimations, root: (real, int) -> real, diameterM: real, velocityKms: real, distanceKm: real)
    requires FollowsTsunamiModel(est, root)
    requires 0.0 <= diameterM && 0.0 <= velocityKms && 0.0 <= distanceKm
    ensures var r := TsunamiChain(est, diameterM, velocityKms, distanceKm);
            (r.Ok? <==> distanceKm != 0.0) &&
            (r.Ok? ==>
               var t := r.value;
               TsunamiModel.CraterLaw(t.transientCraterDiameterM, diameterM, velocityKms * MetresPerKilometre, ProjectileDensity) &&
               t.initialHeightM * 16.0 == t.transientCraterDiameterM &&
               t.height500kmM * t.height500kmM * (distanceKm * MetresPerKilometre)
                 == t.initialHeightM * t.initialHeightM * (t.transientCraterDiameterM / 2.0) &&
               0.0 <= t.height500kmM <= t.shoreHeightM &&
               Pow(t.shoreHeightM, 4) * ShoreDepthM == Pow(t.height500kmM, 4) * AverageOceanicDepthM)
  {
    var v := velocityKms * MetresPerKilometre;
    var c := TsunamiModel.EstimateTransientCrater(root, diameterM, v, ProjectileDensity);
    assert est.transientCrater(diameterM, v, ProjectileDensity) == Ok(c);
    var h0 := TsunamiModel.EstimateInitialTsunamiHeight(c.averageDepthM);
    assert est.initialTsunamiHeight(c.averageDepthM) == Ok(h0);
    assert 0.0 <= c.radiusM;
    if distanceKm != 0.0 {
      assert 0.0 <= c.radiusM / (distanceKm * 1000.0);
    }
    assert TsunamiModel.DistanceInDomain(c.radiusM, distanceKm);
    var h := TsunamiModel.VariableTsunamiHeight(root, h0, c.radiusM, distanceKm);
    assert est.variableTsunamiHeight(h0, c.radiusM, distanceKm) == h;
    if distanceKm != 0.0 {
      assert TsunamiModel.DepthsInDomain(AverageOceanicDepthM, ShoreDepthM);
      var hs := TsunamiModel.ShoreTsunamiHeight(root, h.value, AverageOceanicDepthM, ShoreDepthM);
      assert est.shoreTsunamiHeight(h.value, AverageOceanicDepthM, ShoreDepthM) == hs;
      TsunamiModel.ShoreAtLeastOpenOcean(root, h.value, AverageOceanicDepthM, ShoreDepthM);
    }
  }

  // ---- run_impact_simulation ----

  /** The parts of a NASA NEO lookup record the simulation reads: the name, the
      minimum and maximum estimated diameters in metres, and the relative
      velocity in km/s of each close approach, in order. */
  datatype NeoRecord = NeoRecord(name: Option<string>, diameterMinM: real, diameterMaxM: real,
                                 approachVelocitiesKms: seq<real>)

  /** The dictionary `run_impact_simulation` returns: the NEO's name and id in
      front of the entries of a custom impact. */
  datatype NeoImpactReport = NeoImpactReport(asteroidName: Option<string>, neoId: string, impact: ImpactReport)

  /** The diameter taken for a NEO: the mean of its two estimates. */
  function MeanDiameter(diameterMinM: real, diameterMaxM: real): (d: real)
    ensures d - diameterMinM == diameterMaxM - d
    ensures diameterMinM <= diameterMaxM ==> diameterMinM <= d <= diameterMaxM
  {
    (diameterMinM + diameterMaxM) / 2.0
  }

  /** The message Python gives when `close_approach_data` is empty. */
  const IndexOutOfRange: string := "list index out of range"

  /** `run_impact_simulation`: look the NEO up (`lookup` stands for
      `NASAClient.get_neo_lookup`), take the mean diameter and the first close
      approach's velocity, and run the same composition as `run_custom_impact`. */
  function RunImpactSimulation(lookup: string -> Result<NeoRecord>, est: Estimations, neoId: string,
                               lat: real, lon: real, distanceKm: real := DefaultDistanceKm): (r: Result<NeoImpactReport>)
    ensures lookup(neoId).Err? ==> r == Err(lookup(neoId).message)
    ensures lookup(neoId).Ok? && |lookup(neoId).value.approachVelocitiesKms| == 0 ==> r == Err(IndexOutOfRange)
    ensures lookup(neoId).Ok? && |lookup(neoId).value.approachVelocitiesKms| > 0 ==>
      var neo := lookup(neoId).value;
      var c := RunCustomImpact(est, MeanDiameter(neo.diameterMinM, neo.diameterMaxM),
                               neo.approachVelocitiesKms[0], lat, lon, distanceKm);
      (r.Ok? <==> c.Ok?) && (c.Err? ==> r == Err(c.message))
    ensures r.Ok? ==>
      var neo := lookup(neoId).value;
      |neo.approachVelocitiesKms| > 0 &&
      r.value.asteroidName == neo.name && r.value.neoId == neoId &&
      r.value.impact.diameterM == MeanDiameter(neo.diameterMinM, neo.diameterMaxM) &&
      r.value.impact.velocityKms == neo.approachVelocitiesKms[0] &&
      RunCustomImpact(est, r.value.impact.diameterM, r.value.impact.velocityKms, lat, lon, distanceKm) == Ok(r.value.impact)
  {
    var neo :- lookup(neoId);
    var diameter := MeanDiameter(neo.diameterMinM, neo.diameterMaxM);
    if |neo.approachVelocitiesKms| == 0 then Err(IndexOutOfRange)
    else
      var impact :- RunCustomImpact(est, diameter, neo.approachVelocitiesKms[0], lat, lon, distanceKm);
      Ok(NeoImpactReport(neo.name, neoId, impact))
  }
}
