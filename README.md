# meatier-not-meteor: the impact, tsunami and reentry rules in Dafny

This project models the deterministic rules of the asteroid-impact backend and
of the reentry script of *meatier-not-meteor*, with exact real arithmetic:

- **Kinetic impactor** (`KineticImpactor.dfy`). A perfectly inelastic collision
  gives the asteroid's velocity after impact. That velocity becomes a slowdown
  percentage, which is graded into one of four verdicts. The slowed asteroid
  is then handed to the custom impact simulation, and any exception there is
  caught. The asteroid's diameter comes from its mass at density 3000 kg/m³.
- **Tsunami model** (`TsunamiModel.dfy`). Four steps: the transient crater of
  the Ward and Asphaug law, the initial wave height, the height at a distance
  and the height at the shore.
- **Impact report** (`ImpactSimulation.dfy`). The composition in
  `run_custom_impact`:
  - the energy estimate;
  - the guarded ocean/land classification and its "Unknown" fallback;
  - crater area and earthquake magnitude from the same energy;
  - the tsunami chain, for ocean impacts only.

  It also models `run_impact_simulation`, which takes the mean of a NEO's
  diameter estimates and the velocity of its first close approach. The
  `AsteroidEstimations` collaborator and the NASA lookup are not part of this
  model. They are function-valued parameters that return `Ok` or
  `Err` (an exception).
- **Reentry analysis** (`OrbitDynamics.dfy`):
  - the speed-of-sound table and the Mach number;
  - the rational branches of the drag coefficient;
  - the mass/volume fields that `atmospheric_geo_drag` writes on the
    `Reentry_analysis` object (a Dafny class);
  - the mean-motion unit change;
  - the NORAD two-line element (TLE) epoch. Line 1 is written with a two-digit
    year and a day of the year, and read back from columns 19–32 with the year
    pivot at 57.

Python's fractional powers (`** (1/3)`, `** 0.5`, `** 0.25`, `** 0.78`, and so on)
are taken from a root function passed in as a parameter. The predicate
`RealMath.IsRoot` constrains it: `root(x, n)` is the non-negative real whose `n`-th
power is `x`, for every `x >= 0`. Every result is therefore stated by the
polynomial relation it satisfies. One example is `h² · distance · 1000 = h0² · r`
for the wave height at a distance. The crater law becomes
`t⁵⁰ · 9.81¹¹ = 1.161⁵⁰ · D³⁹ · v²² · (ρ/1000)¹³` once all its exponents share the
denominator 50. `Results.dfy` holds `Option` and `Result`. A Python exception
is an `Err` carrying the exception's message. `RealMath.dfy` holds `Pow` on
reals and the facts about powers and roots that the proofs use.

## Model

| member | source | states |
|---|---|---|
| KineticImpactor.DiameterM | backend/kinectic_impactor.py:12-15 | the diameter exists exactly for a non-negative mass; it is non-negative and satisfies d³·π·3000 = 6·mass |
| KineticImpactor.DiameterIncreasing | backend/kinectic_impactor.py:12-15 | a heavier asteroid has a strictly larger diameter |
| KineticImpactor.FinalVelocity | backend/kinectic_impactor.py:43-44 | momentum is conserved: (m1+m2)·v_final = m1·v1 − m2·v2 |
| KineticImpactor.SlowdownPct | backend/kinectic_impactor.py:45 | slowdown·v1 = (v1 − abs(v_final))·100; it is at most 100 for v1 > 0, and exactly 100 iff v_final = 0 |
| KineticImpactor.Classify | backend/kinectic_impactor.py:48-59 | each verdict holds exactly on its band: ≥ 99.9 deflected, [80, 99.9) partial, [50, 80) weak, < 50 failed |
| KineticImpactor.ClassifyMonotone | backend/kinectic_impactor.py:48-59 | a larger slowdown never gets a worse verdict |
| KineticImpactor.SimulateImpact | backend/kinectic_impactor.py:61-71 | the simulation gets the mass's diameter, velocity v_final/1000 and distance 500; any failure there gives None; for a negative mass, whose diameter is not real, the model chooses None |
| KineticImpactor.InterceptAsteroid | backend/kinectic_impactor.py:37-101 | fails with division by zero exactly when m1+m2 = 0 or v1 = 0; otherwise the record echoes m1, v1, m2, v2, conserves momentum, carries the slowdown and the guarded simulation, and the verdict is the slowdown's band |
| KineticImpactor.FullStopIffMomentaCancel | backend/kinectic_impactor.py:44-49 | the slowdown is 100% exactly when m1·v1 = m2·v2, that case is full deflection, and the slowdown never exceeds 100% for v1 > 0 |
| KineticImpactor.MasslessImpactorFails | backend/kinectic_impactor.py:44-57 | a zero-mass impactor leaves v_final = v1 and slowdown 0, which is a failure |
| TsunamiModel.EstimateTransientCrater | backend/core/tsunami_model.py:4-12 | the diameter satisfies the crater law with exponents over 50; the radius is half the diameter and the average depth a quarter of it |
| TsunamiModel.CraterPositive | backend/core/tsunami_model.py:8 | the crater diameter is positive exactly when diameter, velocity and density all are |
| TsunamiModel.CraterIncreasing | backend/core/tsunami_model.py:8 | the crater diameter grows strictly with projectile diameter, velocity and density |
| TsunamiModel.RadicandIncreasing | backend/core/tsunami_model.py:8 | the quantity whose 50th root is the crater diameter grows strictly with each input |
| TsunamiModel.ProjectileTermIncreasing | backend/core/tsunami_model.py:8 | D³⁹·v²²·(ρ/1000)¹³ grows strictly with each positive input |
| TsunamiModel.EstimateInitialTsunamiHeight | backend/core/tsunami_model.py:14-19 | the initial height is a quarter of the average crater depth |
| TsunamiModel.InitialHeightIsSixteenthOfCrater | backend/core/tsunami_model.py:9-18 | over the chain the initial height is a sixteenth of the crater diameter |
| TsunamiModel.VariableTsunamiHeight | backend/core/tsunami_model.py:21-26 | fails with division by zero exactly at distance 0; otherwise h²·distance·1000 = h0²·r, and h ≥ 0 iff h0 ≥ 0 or r = 0 |
| TsunamiModel.HeightAtCraterRadius | backend/core/tsunami_model.py:25 | at a distance equal to the crater radius the height is the initial height |
| TsunamiModel.HeightDecreasesWithDistance | backend/core/tsunami_model.py:25 | for positive h0 and r the height strictly decreases as the distance grows |
| TsunamiModel.ShoreTsunamiHeight | backend/core/tsunami_model.py:28-33 | fails with division by zero exactly at shore depth 0; otherwise hs⁴·shore = h⁴·average, and hs ≥ 0 iff h ≥ 0 or the average depth is 0 |
| TsunamiModel.ShoreAtLeastOpenOcean | backend/core/tsunami_model.py:32 | when the ocean is at least as deep as the shore, the shore height is at least the open-ocean height |
| TsunamiModel.ShoreEqualDepths | backend/core/tsunami_model.py:32 | equal depths leave the height unchanged |
| ImpactSimulation.ClassifySurface | backend/impact_simulation.py:98-104 | ocean iff the classification succeeded and said ocean; "Ocean"/"Land" on success, "Unknown (…)" iff it raised; elevation present iff it succeeded |
| ImpactSimulation.TsunamiChain | backend/impact_simulation.py:113-122 | the chain feeds velocity ×1000, density 3000, ocean depth 4000 and shore depth 200, and each estimate takes the previous one's output; it fails iff any step fails, with the exception of the first step that fails |
| ImpactSimulation.RunCustomImpact | backend/impact_simulation.py:88-133 | fails exactly when an uncaught estimate fails, with the exception of the first one that fails (energy, crater size, magnitude, then the tsunami chain for ocean points); echoes diameter and velocity; crater area and magnitude come from the same energy; tsunami present iff the point was classified ocean |
| ImpactSimulation.TsunamiOnlyForOcean | backend/impact_simulation.py:100-122 | tsunami data appear exactly when the surface reads "Ocean", and are absent exactly for "Land" or "Unknown" |
| ImpactSimulation.ClassificationFailureFallsBack | backend/impact_simulation.py:98-112 | a failed classification gives surface "Unknown (message)", no elevation and no tsunami |
| ImpactSimulation.TsunamiChainWithModel | backend/impact_simulation.py:113-122 | with the estimates of tsunami_model.py the chain succeeds iff the distance is non-zero; the initial wave is a sixteenth of the crater, the height at distance satisfies its square law, and the wave at the shore is at least that height |
| ImpactSimulation.MeanDiameter | backend/impact_simulation.py:13-16 | the diameter is equidistant from both estimates, so lies between them when min ≤ max |
| ImpactSimulation.RunImpactSimulation | backend/impact_simulation.py:9-64 | a failed lookup or an empty close-approach list fails with that error; for a found NEO with a close approach, it succeeds exactly when the custom impact of the mean diameter and the first approach velocity does, fails with that impact's error otherwise, and the report names the NEO and carries that impact |
| OrbitDynamics.SpeedOfSound | simulations/orbitdynamics.py:403-416 | first matching band wins (< 11 → 340, < 20 → 295, < 32 → 303, < 47 → 330, < 51 → 340, < 71 → 355, else 270); always within [270, 355] |
| OrbitDynamics.ComputeMach | simulations/orbitdynamics.py:398-419 | Mach·a = v·1000; it is 0 iff v = 0 and non-negative for v ≥ 0 |
| OrbitDynamics.MachIncreasing | simulations/orbitdynamics.py:418-419 | at a fixed altitude Mach grows strictly with velocity |
| OrbitDynamics.SubsonicDrag | simulations/orbitdynamics.py:385 | the polynomial fit is at least 0.424, and above it for non-zero Mach |
| OrbitDynamics.SubsonicDragIncreasing | simulations/orbitdynamics.py:385 | the polynomial fit grows strictly with non-negative Mach |
| OrbitDynamics.DragCoefficientFor | simulations/orbitdynamics.py:376-388 | velocity 0 gives 0.7; otherwise the polynomial branch is taken iff Mach ≤ 0.722, with cd − 0.424 = 0.45·M² > 0, and the exponential branch keeps the Mach number |
| OrbitDynamics.SubsonicDragBounds | simulations/orbitdynamics.py:376-385 | for moving bodies in the subsonic branch the coefficient grows with velocity and never exceeds its value at Mach 0.722 |
| OrbitDynamics.SphereVolume | simulations/orbitdynamics.py:365-367 | 6·V = π·d³ |
| OrbitDynamics.CrossSection | simulations/orbitdynamics.py:369 | 4·A = π·d² |
| OrbitDynamics.SphereVolumeDeterminesDiameter | simulations/orbitdynamics.py:365-367 | the diameter is recovered from the volume as the cube root of 6V/π |
| OrbitDynamics.ReentryAnalysis.constructor | simulations/orbitdynamics.py:18-28 | diameter, mass and volume start at zero |
| OrbitDynamics.ReentryAnalysis.AtmosphericGeoDrag | simulations/orbitdynamics.py:363-396 | writes only mass and volume: volume of the sphere, mass = density·volume; returns the drag coefficient; with a rational coefficient it raises ZeroDivisionError exactly for diameter 0 and otherwise returns the ballistic coefficient with ballistic·cd·A = mass; with the exponential fit it returns no ballistic value |
| OrbitDynamics.DenominatorZero | simulations/orbitdynamics.py:390 | with a positive coefficient, Cd·Area is zero exactly for diameter 0 |
| OrbitDynamics.MeanMotionRevsPerDay | simulations/orbitdynamics.py:321 | revs/day · 360 = deg/day |
| OrbitDynamics.MeanMotionOfRevolutions | simulations/orbitdynamics.py:321 | a rate of whole revolutions written in degrees converts back to itself |
| OrbitDynamics.Slice | simulations/orbitdynamics.py:75 | Python slicing with clipped bounds: the length and each character of the slice |
| OrbitDynamics.StripStart | simulations/orbitdynamics.py:75 | the result is a suffix that starts with a non-space, and everything removed is whitespace |
| OrbitDynamics.StripEnd | simulations/orbitdynamics.py:75 | the result is a prefix that ends with a non-space, and everything removed is whitespace |
| OrbitDynamics.Strip | simulations/orbitdynamics.py:75 | the result is a stretch of the text with only whitespace before and after it, and it neither starts nor ends with whitespace |
| OrbitDynamics.StripUnchanged | simulations/orbitdynamics.py:75 | text bounded by non-space characters is not changed by strip |
| OrbitDynamics.EpochField | simulations/orbitdynamics.py:75 | the field is at most 14 characters and neither starts nor ends with whitespace |
| OrbitDynamics.ParseInt | simulations/orbitdynamics.py:77 | succeeds exactly on text with no separator U+001C–U+001F that strips to an optional sign and one or more digits, and then gives their value with that sign; otherwise raises with int's message |
| OrbitDynamics.ParseFloat | simulations/orbitdynamics.py:79 | succeeds exactly on text with no separator U+001C–U+001F that strips to an optional sign and a decimal, and then gives its value with that sign; otherwise raises with float's message |
| OrbitDynamics.SeparatorRaises | simulations/orbitdynamics.py:77-79 | text holding a separator U+001C–U+001F raises in both `int` and `float` |
| OrbitDynamics.SeparatorInYearRaises | simulations/orbitdynamics.py:75-77 | an epoch field whose second character is a separator raises at the year reading, although `strip` counts it as whitespace |
| OrbitDynamics.FullYear | simulations/orbitdynamics.py:81 | below 57 the year is 2000+yy, otherwise 1900+yy |
| OrbitDynamics.FullYearRange | simulations/orbitdynamics.py:81 | every two-digit year lands in 1957..2056 (the pivot here and at line 455) |
| OrbitDynamics.FullYearInjective | simulations/orbitdynamics.py:81 | distinct two-digit years give distinct full years |
| OrbitDynamics.FullYearOfTwoDigitYear | simulations/orbitdynamics.py:81 | the pivot undoes the `year % 100` of line 325 exactly for years 1957..2056 |
| OrbitDynamics.ParseTleEpoch | simulations/orbitdynamics.py:74-81 | succeeds iff both fields of line1[18:32].strip() parse (as here and at lines 452–455); the year is the pivot of the first two characters and the day is the rest; a bad year raises int's error, a bad day float's |
| OrbitDynamics.DigitsValueOfDigits | simulations/orbitdynamics.py:334 | reading the decimal digits of n gives n |
| OrbitDynamics.ZeroPad | simulations/orbitdynamics.py:347 | the `0Nd` text is all digits, at least one of them, and has length N or the number's own digit count if that is larger |
| OrbitDynamics.ZeroPadValue | simulations/orbitdynamics.py:334 | zero padding does not change the value |
| OrbitDynamics.TwoDigitYear | simulations/orbitdynamics.py:325-334 | the `02d` year is two digits whose value is the year modulo 100 |
| OrbitDynamics.DayOfYearText | simulations/orbitdynamics.py:334 | the `012.8f` day is digits with one point before the last eight, and is 12 characters for days below 1000 |
| OrbitDynamics.EpochText | simulations/orbitdynamics.py:334 | for a day below 1000 and a fraction below 10^8, the epoch text is 14 characters that start and end with a digit |
| OrbitDynamics.Line1 | simulations/orbitdynamics.py:346-349 | for a five-digit satellite number, line 1 holds the epoch text at columns 19 onwards and has 47 characters besides the epoch and B* texts |
| OrbitDynamics.Line1Length | simulations/orbitdynamics.py:340-349 | with the 14-character epoch and the 7-character B* text the writer builds, line 1 is 68 characters |
| OrbitDynamics.ZeroPadLength | simulations/orbitdynamics.py:346-347 | a number below 10^w pads to exactly w characters |
| OrbitDynamics.ParseTwoDigitYear | simulations/orbitdynamics.py:77 | int reads a 02d year back as itself |
| OrbitDynamics.ParseDayOfYear | simulations/orbitdynamics.py:79 | float reads a 012.8f day of the year back as its value |
| OrbitDynamics.EpochFieldOfLine1 | simulations/orbitdynamics.py:346-349 | columns 19–32 of the written line 1 are exactly the epoch text |
| OrbitDynamics.TleEpochRoundTrip | simulations/orbitdynamics.py:319-349 | reading line 1 as `propagate_TLE` does (lines 74–81), the epoch read from the written line 1 is the written year, for every year 1957..2056, and the written day |

## Left out

- Console output, `input()`, the `main` methods and the module-level scripts are not modelled. Their printed verdict texts and tips are replaced by the `Verdict` value.
- The HTTP clients, the Flask API and `backend/main.py` are I/O plumbing and are not part of this model. `NASAClient.get_neo_lookup` is the `lookup` parameter.
- `AsteroidEstimations` is not part of this model. Its methods are the function-valued fields of `ImpactSimulation.Estimations`. `TsunamiChainWithModel` states what follows when its tsunami methods are those of tsunami_model.py.
- Floating point: all arithmetic is exact. Results right at the thresholds 99.9, 80, 50 and 0.722 can differ from IEEE doubles.
- The transient-crater power law is not evaluated numerically. Its value is the exact 50th root, stated through the law it satisfies.
- TsunamiModel.EstimateTransientCrater requires non-negative inputs. Negative bases under fractional powers yield complex numbers in Python, and the model has no complex numbers.
- TsunamiModel.VariableTsunamiHeight requires that the ratio under the square root be non-negative, for the same reason.
- TsunamiModel.ShoreTsunamiHeight requires that the ratio under the fourth root be non-negative, for the same reason.
- KineticImpactor.DiameterM gives `None` for a negative mass, where Python computes a complex diameter and passes it on to `run_custom_impact`. What that call then does depends on `AsteroidEstimations`, which is not part of this model. The model chooses `None`, so `SimulateImpact` gives `None` for a negative mass.
- The `exp` branch of the drag coefficient for Mach above 0.722, the atmospheric density and the B* drag term are not evaluated. The model returns the Mach number at which the exponential fit applies.
- ReentryAnalysis.AtmosphericGeoDrag treats its arguments as Python floats. Then a rational drag coefficient is a Python float and a zero `Cd*Area` raises `ZeroDivisionError`. If `diameter`, or a non-zero `velocity`, is a numpy scalar, numpy gives inf or nan with a warning instead; the model does not capture that. With the exponential fit the coefficient is a numpy value, so the division never raises; the model returns no ballistic value there.
- SGP4 propagation, `solve_ivp` integration, the poliastro/astropy conversions, the WGS-84 mesh, `RV_to_keplerian` and plotting are numeric or foreign code and are not modelled.
- `propagate_TLE` is not modelled beyond its epoch reading. `datetime`/`timedelta` construction and `jday` are library date arithmetic.
- Line1Length: the written line 1 is 68 characters, one fewer than the 69 columns of a standard TLE line 1; the model keeps the text the writer builds and states nothing about the standard column layout.
- `write_tle_from_elements`: the fraction of the day comes from `astropy.time.Time`, and `:012.8f` rounds the day to eight decimals; neither the fraction nor the rounding is modelled, only the `012.8f` layout. The model writes a day that is already rounded to eight decimals, as whole days plus hundred-millionths. The B* text from `:.5e` and line 2 are parameters or left out.
- OrbitDynamics.ParseInt does not accept underscores or non-ASCII digits, which Python's `int` accepts.
- OrbitDynamics.ParseFloat does not accept exponents, `inf`, `nan`, underscores or non-ASCII digits, which Python's `float` accepts, and gives the exact decimal value instead of the nearest double.
- Error messages are the `ZeroDivisionError`/`ValueError`/`IndexError` texts without the offending value that Python appends to `ValueError`.
- The `"height_500km_m"` entry holds the height at whatever distance was passed, as the source's code does. The model calls it `height500kmM`.
- `run_impact_simulation` repeats the body of `run_custom_impact` with the same constants and the same order of steps, so the model expresses it through `RunCustomImpact`. The lookup record's `float()` conversions of strings are not modelled.
