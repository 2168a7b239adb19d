/** The exactly specifiable rules of simulations/orbitdynamics.py: the speed of
    sound by altitude band and the Mach number, the subsonic drag coefficient and
    the mass/volume update of `atmospheric_geo_drag`, the NORAD two-line element
    (TLE) epoch field with its two-digit year pivot, and the mean-motion unit change. */
module OrbitDynamics {
  import opened Results
  import opened RealMath

  // ---- Speed of sound and Mach number ----

  /** The speed of sound (m/s) `compute_mach` picks for an altitude in km;
      the first band whose upper bound exceeds the altitude wins. */
  function SpeedOfSound(altitudeKm: real): (a: real)
    ensures 270.0 <= a <= 355.0
    ensures altitudeKm < 11.0 ==> a == 340.0
    ensures 11.0 <= altitudeKm < 20.0 ==> a == 295.0
    ensures 20.0 <= altitudeKm < 32.0 ==> a == 303.0
    ensures 32.0 <= altitudeKm < 47.0 ==> a == 330.0
    ensures 47.0 <= altitudeKm < 51.0 ==> a == 340.0
    ensures 51.0 <= altitudeKm < 71.0 ==> a == 355.0
    ensures 71.0 <= altitudeKm ==> a == 270.0
  {
    if altitudeKm < 11.0 then 340.0
    else if altitudeKm < 20.0 then 295.0
    else if altitudeKm < 32.0 then 303.0
    else if altitudeKm < 47.0 then 330.0
    else if altitudeKm < 51.0 then 340.0
    else if altitudeKm < 71.0 then 355.0
    else 270.0
  }

  /** `compute_mach`: a velocity in km/s over the local speed of sound in m/s. */
  function ComputeMach(altitudeKm: real, velocityKms: real): (m: real)
    ensures m * SpeedOfSound(altitudeKm) == velocityKms * 1000.0
    ensures m == 0.0 <==> velocityKms == 0.0
    ensures 0.0 <= velocityKms ==> 0.0 <= m
  {
    velocityKms * 1000.0 / SpeedOfSound(altitudeKm)
  }

  /** At a fixed altitude the Mach number grows strictly with velocity. */
  lemma MachIncreasing(altitudeKm: real, slower: real, faster: real)
    requires slower < faster
    ensures ComputeMach(altitudeKm, slower) < ComputeMach(altitudeKm, faster)
  {
    var a := SpeedOfSound(altitudeKm);
    var m1, m2 := ComputeMach(altitudeKm, slower), ComputeMach(altitudeKm, faster);
    assert (m2 - m1) * a == (faster - slower) * 1000.0;
  }

  // ---- Drag coefficient ----

  /** The largest Mach number the polynomial drag branch covers. */
  const SubsonicMachLimit: real := 0.722

  /** The drag coefficient of `atmospheric_geo_drag`: a value where the source
      gives one by a rational formula, or the Mach number at which the source
      switches to its exponential fit, which this model does not evaluate. */
  datatype DragCoefficient = Exact(cd: real) | ExponentialFit(mach: real)

  /** The polynomial fit `0.45*M**2 + 0.424` below the limit. */
  function SubsonicDrag(m: real): (cd: real)
    ensures 0.424 <= cd
    ensures m != 0.0 ==> 0.424 < cd
  {
    SquareSign(m);
    0.45 * Pow(m, 2) + 0.424
  }

  /** Above zero the fit grows with the Mach number. */
  lemma SubsonicDragIncreasing(m1: real, m2: real)
    requires 0.0 <= m1 < m2
    ensures SubsonicDrag(m1) < SubsonicDrag(m2)
  {
    PowStrictlyIncreasing(m1, m2, 2);
  }

  function DragCoefficientFor(altitudeKm: real, velocityKms: real): (c: DragCoefficient)
    ensures velocityKms == 0.0 ==> c == Exact(0.7)
    ensures velocityKms != 0.0 ==>
      var m := ComputeMach(altitudeKm, velocityKms);
      (c.Exact? <==> m <= SubsonicMachLimit) &&
      (c.Exact? ==> c.cd - 0.424 == 0.45 * Pow(m, 2) && 0.424 < c.cd) &&
      (c.ExponentialFit? ==> c.mach == m)
  {
    if velocityKms == 0.0 then Exact(0.7)
    else
      var m := ComputeMach(altitudeKm, velocityKms);
      if m <= SubsonicMachLimit then Exact(SubsonicDrag(m)) else ExponentialFit(m)
  }

  /** For a body that moves, the subsonic coefficient lies above 0.424 and at
      most at its value at the branch limit, and grows with velocity. */
  lemma SubsonicDragBounds(altitudeKm: real, slower: real, faster: real)
    requires 0.0 < slower < faster
    requires ComputeMach(altitudeKm, faster) <= SubsonicMachLimit
    ensures var c1, c2 := DragCoefficientFor(altitudeKm, slower), DragCoefficientFor(altitudeKm, faster);
            c1.Exact? && c2.Exact? && c1.cd < c2.cd <= SubsonicDrag(SubsonicMachLimit)
  {
    MachIncreasing(altitudeKm, slower, faster);
    var m1, m2 := ComputeMach(altitudeKm, slower), ComputeMach(altitudeKm, faster);
    SubsonicDragIncreasing(m1, m2);
    if m2 < SubsonicMachLimit {
      SubsonicDragIncreasing(m2, SubsonicMachLimit);
    }
  }

  // ---- Sphere geometry and the reentry object ----

  /** The volume `4*PI/3 * radius**3` of a sphere of the given diameter. */
  function SphereVolume(diameter: real): (v: real)
    ensures v * 6.0 == Pi * Pow(diameter, 3)
  {
    var radius := diameter / 2.0;
    PowCube(diameter);
    4.0 * Pi / 3.0 * (radius * radius * radius)
  }

  /** The cross-section `PI*radius**2` of that sphere. */
  function CrossSection(diameter: real): (area: real)
    ensures area * 4.0 == Pi * diameter * diameter
  {
    var radius := diameter / 2.0;
    Pi * (radius * radius)
  }

  /** With a positive drag coefficient, `Cd * Area` vanishes exactly for a
      sphere of diameter zero. */
  lemma DenominatorZero(cd: real, diameter: real)
    requires 0.0 < cd
    ensures cd * CrossSection(diameter) == 0.0 <==> diameter == 0.0
  {
    var radius := diameter / 2.0;
    assert CrossSection(diameter) == Pi * (radius * radius);
    if diameter != 0.0 {
      SquareSign(radius);
      PowSquare(radius);
      assert 0.0 < radius * radius;
      assert 0.0 < Pi * (radius * radius);
      assert 0.0 < cd * CrossSection(diameter);
    }
  }

  /** `Reentry_analysis`: the Earth and atmosphere constants its constructor
      stores, and the three fields the analysis writes. */
  class ReentryAnalysis {
    /** WGS-84 first eccentricity squared, semi-major and semi-minor axes (m). */
    const e2: real := 0.00669437999014
    const semiMajorAxis: real := 6378137.0
    const semiMinorAxis: real := 6356752.3142
    /** Earth's gravitational parameter (km^3/s^2). */
    const mu: real := 398600.4418
    /** Atmospheric scale height (m) and sea-level density (kg/m^3). */
    const scaleHeight: real := 8500.0
    const rho0: real := 1.225
    /** Density of the reentering body (kg/m^3). */
    const rhoBody: real := 3000.0

    var diameter: real
    var mass: real
    var volume: real

    constructor ()
      ensures diameter == 0.0 && mass == 0.0 && volume == 0.0
    {
      diameter, mass, volume := 0.0, 0.0, 0.0;
    }

    /** `atmospheric_geo_drag`: records the mass and volume of a sphere of the
        given diameter and density, then returns the drag coefficient and the
        ballistic coefficient `mass / (Cd * Area)`. A rational coefficient is a
        Python float, so a zero denominator raises `ZeroDivisionError` after the
        two fields are written; the ballistic coefficient is `Ok(None)` where the
        coefficient is the exponential fit, which is not evaluated. The B* term
        needs `exp` and is not returned. */
    method AtmosphericGeoDrag(diameterM: real, density: real, altitudeKm: real, velocityKms: real)
      returns (cd: DragCoefficient, ballistic: Result<Option<real>>)
      modifies this`mass, this`volume
      ensures volume == SphereVolume(diameterM) && mass == density * volume
      ensures cd == DragCoefficientFor(altitudeKm, velocityKms)
      ensures ballistic.Err? <==> cd.Exact? && diameterM == 0.0
      ensures ballistic.Err? ==> ballistic.message == DivisionByZero
      ensures ballistic.Ok? ==> (ballistic.value.Some? <==> cd.Exact?)
      ensures ballistic.Ok? && ballistic.value.Some? ==>
                ballistic.value.value * (cd.cd * CrossSection(diameterM)) == mass
    {
      var v := SphereVolume(diameterM);
      var area := CrossSection(diameterM);
      var m := density * v;
      mass := m;
      volume := v;
      cd := DragCoefficientFor(altitudeKm, velocityKms);
      if cd.ExponentialFit? {
        ballistic := Ok(None);
      } else {
        DenominatorZero(cd.cd, diameterM);
        if cd.cd * area == 0.0 {
          ballistic := Err(DivisionByZero);
        } else {
          ballistic := Ok(Some(m / (cd.cd * area)));
        }
      }
    }
  }

  /** Diameter of a sphere whose volume is known: the cube root of 6 V / pi. */
  lemma SphereVolumeDeterminesDiameter(root: (real, int) -> real, diameter: real)
    requires IsRoot(root) && 0.0 <= diameter
    ensures root(6.0 * SphereVolume(diameter) / Pi, 3) == diameter
  {
    assert 6.0 * SphereVolume(diameter) / Pi == Pow(diameter, 3);
    RootUnique(root, Pow(diameter, 3), diameter, 3);
  }

  // ---- Mean motion ----

  /** `write_tle_from_elements`: mean motion in degrees per day over 360. */
  function MeanMotionRevsPerDay(degreesPerDay: real): (revs: real)
    ensures revs * 360.0 == degreesPerDay
  {
    degreesPerDay / 360.0
  }

  /** Converting a whole-revolution rate given in degrees back gives the revolutions. */
  lemma MeanMotionOfRevolutions(revsPerDay: real)
    ensures MeanMotionRevsPerDay(revsPerDay * 360.0) == revsPerDay
  {
  }

  // ---- Python string operations the TLE code uses ----

  /** Python's `s[i:j]` for non-negative bounds: bounds past the end are clipped
      and an empty range gives the empty string. */
  function Slice(s: string, i: nat, j: nat): (t: string)
    ensures |t| == if j <= i || |s| <= i then 0 else (if j <= |s| then j else |s|) - i
    ensures forall k :: 0 <= k < |t| ==> t[k] == s[i + k]
  {
    if j <= i || |s| <= i then "" else if j <= |s| then s[i..j] else s[i..]
  }

  /** The characters for which Python's `str.isspace` holds. */
  predicate IsSpace(c: char)
  {
    c == ' ' || ('\t' <= c <= '\r') || ('\U{1C}' <= c <= '\U{1F}') || c == '\U{85}' || c == '\U{A0}' ||
    c == '\U{1680}' || ('\U{2000}' <= c <= '\U{200A}') || c == '\U{2028}' || c == '\U{2029}' ||
    c == '\U{202F}' || c == '\U{205F}' || c == '\U{3000}'
  }

  /** `s.lstrip()`. */
  function StripStart(s: string): (t: string)
    ensures |t| <= |s| && t == s[|s| - |t|..]
    ensures t != [] ==> !IsSpace(t[0])
    ensures forall k :: 0 <= k < |s| - |t| ==> IsSpace(s[k])
  {
    if s != [] && IsSpace(s[0]) then
      var t := StripStart(s[1..]);
      LeadingSpaceStep(s, t);
      t
    else s
  }

  /** A tail `t` left after stripping `s[1..]` is also what is left of `s`
      once its leading space is dropped. */
  lemma LeadingSpaceStep(s: string, t: string)
    requires s != [] && IsSpace(s[0])
    requires |t| <= |s| - 1 && t == s[1..][|s| - 1 - |t|..]
    requires forall k :: 0 <= k < |s| - 1 - |t| ==> IsSpace(s[1..][k])
    ensures |t| <= |s| && t == s[|s| - |t|..]
    ensures forall k :: 0 <= k < |s| - |t| ==> IsSpace(s[k])
  {
    forall k | 0 <= k < |s| - |t|
      ensures IsSpace(s[k])
    {
      if k > 0 {
        assert s[k] == s[1..][k - 1];
      }
    }
  }

  /** `s.rstrip()`. */
  function StripEnd(s: string): (t: string)
    ensures |t| <= |s| && t == s[..|t|]
    ensures t != [] ==> !IsSpace(t[|t| - 1])
    ensures forall k :: |t| <= k < |s| ==> IsSpace(s[k])
  {
    if s != [] && IsSpace(s[|s| - 1]) then StripEnd(s[..|s| - 1]) else s
  }

  /** `s.strip()`: the text between the leading and the trailing whitespace. */
  function Strip(s: string): (t: string)
    ensures SpaceAround(s, |s| - |StripStart(s)|, t)
    ensures t != [] ==> !IsSpace(t[0]) && !IsSpace(t[|t| - 1])
  {
    var u := StripStart(s);
    var t := StripEnd(u);
    StretchOfSuffix(s, u, t);
    t
  }

  /** `t` sits in `s` from index `i` on, with only whitespace before and after it. */
  predicate SpaceAround(s: string, i: int, t: string)
  {
    0 <= i && i + |t| <= |s| && t == s[i..i + |t|] &&
    (forall k :: 0 <= k < i ==> IsSpace(s[k])) &&
    (forall k :: i + |t| <= k < |s| ==> IsSpace(s[k]))
  }

  /** A prefix `t` of a suffix `u` of `s`, each cut at whitespace, is a stretch
      of `s` with only whitespace around it. */
  lemma StretchOfSuffix(s: string, u: string, t: string)
    requires |u| <= |s| && u == s[|s| - |u|..]
    requires u != [] ==> !IsSpace(u[0])
    requires forall k :: 0 <= k < |s| - |u| ==> IsSpace(s[k])
    requires |t| <= |u| && t == u[..|t|]
    requires t != [] ==> !IsSpace(t[|t| - 1])
    requires forall k :: |t| <= k < |u| ==> IsSpace(u[k])
    ensures SpaceAround(s, |s| - |u|, t)
    ensures t != [] ==> !IsSpace(t[0]) && !IsSpace(t[|t| - 1])
  {
    var i := |s| - |u|;
    assert t != [] ==> t[0] == u[0];
    forall j | 0 <= j < |t|
      ensures t[j] == s[i + j]
    {
      assert t[j] == u[j];
    }
    forall k | i + |t| <= k < |s|
      ensures IsSpace(s[k])
    {
      assert s[k] == u[k - i];
    }
  }

  /** Text that starts and ends with a non-space character is left as it is. */
  lemma StripUnchanged(s: string)
    requires s != [] && !IsSpace(s[0]) && !IsSpace(s[|s| - 1])
    ensures Strip(s) == s
  {
    assert StripStart(s) == s;
  }

  predicate IsDigit(c: char)
  {
    '0' <= c <= '9'
  }

  predicate AllDigits(s: string)
  {
    forall k :: 0 <= k < |s| ==> IsDigit(s[k])
  }

  function DigitValue(c: char): nat
    requires IsDigit(c)
  {
    (c as int) - ('0' as int)
  }

  /** The number an ASCII digit string denotes. */
  function DigitsValue(s: string): nat
    requires AllDigits(s)
  {
    if s == [] then 0 else 10 * DigitsValue(s[..|s| - 1]) + DigitValue(s[|s| - 1])
  }

  /** The length of the run of digits that starts `s`. */
  function LeadingDigits(s: string): (k: nat)
    ensures k <= |s| && AllDigits(s[..k])
    ensures k < |s| ==> !IsDigit(s[k])
  {
    if s != [] && IsDigit(s[0]) then
      var k := 1 + LeadingDigits(s[1..]);
      assert s[..k] == [s[0]] + s[1..][..k - 1];
      k
    else 0
  }

  const InvalidIntLiteral: string := "invalid literal for int() with base 10"
  const InvalidFloatLiteral: string := "could not convert string to float"

  /** Splits an optional leading sign off: whether it was `-`, and the rest. */
  function SplitSign(t: string): (r: (bool, string))
    ensures |r.1| <= |t|
  {
    if t != [] && (t[0] == '+' || t[0] == '-') then (t[0] == '-', t[1..]) else (false, t)
  }

  /** The information separators U+001C to U+001F. `str.isspace` holds for
      them, but `int()` and `float()` do not skip them as whitespace. */
  predicate IsSeparator(c: char)
  {
    '\U{1C}' <= c <= '\U{1F}'
  }

  predicate NoSeparators(s: string)
  {
    forall k :: 0 <= k < |s| ==> !IsSeparator(s[k])
  }

  /** Python's `int(s)` on decimal text: surrounding whitespace, an optional
      sign, then one or more ASCII digits; anything else raises `ValueError`.
      The whitespace `int()` skips is that of `str.isspace` without the
      separators; as no sign or digit is a separator, text holding one raises,
      and text holding none strips as `str.strip` does. */
  function ParseInt(s: string): (r: Result<int>)
    ensures r.Ok? <==> NoSeparators(s) && var body := SplitSign(Strip(s)).1; body != [] && AllDigits(body)
    ensures r.Err? ==> r.message == InvalidIntLiteral
    ensures r.Ok? ==>
      var (negative, body) := SplitSign(Strip(s));
      AllDigits(body) && r.value == if negative then -(DigitsValue(body) as int) else DigitsValue(body)
  {
    var (negative, body) := SplitSign(Strip(s));
    SignedDigits(NoSeparators(s), negative, body)
  }

  /** The integer a sign and a digit text spell, when the text around them
      held no separator. */
  function SignedDigits(noSeparators: bool, negative: bool, body: string): (r: Result<int>)
    ensures r.Ok? <==> noSeparators && body != [] && AllDigits(body)
    ensures r.Err? ==> r.message == InvalidIntLiteral
    ensures r.Ok? ==> r.value == if negative then -(DigitsValue(body) as int) else DigitsValue(body)
  {
    if !noSeparators || body == [] || !AllDigits(body) then Err(InvalidIntLiteral)
    else Ok(if negative then -(DigitsValue(body) as int) else DigitsValue(body))
  }

  /** The value of the digits after a decimal point. */
  function FractionValue(frac: string): (f: real)
    requires AllDigits(frac)
    ensures f * Pow(10.0, |frac|) == DigitsValue(frac) as real
  {
    PowPositive(10.0, |frac|);
    DigitsValue(frac) as real / Pow(10.0, |frac|)
  }

  /** The value of decimal text split at the end of its leading digits:
      `whole` digits, then nothing or a point and more digits, with at least one
      digit in all. */
  function PointValue(whole: string, rest: string): (r: Option<real>)
    requires AllDigits(whole)
    ensures r.Some? ==> whole != [] || |rest| > 1
  {
    if rest == [] then (if whole == [] then None else Some(DigitsValue(whole) as real))
    else if rest[0] == '.' && AllDigits(rest[1..]) && (whole != [] || |rest| > 1) then
      Some(DigitsValue(whole) as real + FractionValue(rest[1..]))
    else None
  }

  /** The value of decimal text `digits[.digits]` with at least one digit. */
  function DecimalValue(body: string): Option<real>
  {
    var k := LeadingDigits(body);
    PointValue(body[..k], body[k..])
  }

  /** Python's `float(s)` on plain decimal text: surrounding whitespace, an
      optional sign, digits with at most one decimal point. Like `int()`, it
      does not skip the separators, so text holding one raises. */
  function ParseFloat(s: string): (r: Result<real>)
    ensures r.Ok? <==> NoSeparators(s) && DecimalValue(SplitSign(Strip(s)).1).Some?
    ensures r.Err? ==> r.message == InvalidFloatLiteral
    ensures r.Ok? ==>
      var (negative, body) := SplitSign(Strip(s));
      var v := DecimalValue(body).value;
      r.value == if negative then -v else v
  {
    var (negative, body) := SplitSign(Strip(s));
    if !NoSeparators(s) then Err(InvalidFloatLiteral)
    else match DecimalValue(body)
      case None => Err(InvalidFloatLiteral)
      case Some(v) => Ok(if negative then -v else v)
  }

  /** Text holding a separator is neither an `int` nor a `float`, even where
      `str.strip` would have removed the separator. */
  lemma SeparatorRaises(s: string)
    requires !NoSeparators(s)
    ensures ParseInt(s) == Err(InvalidIntLiteral) && ParseFloat(s) == Err(InvalidFloatLiteral)
  {
  }

  // ---- The TLE epoch ----

  /** A TLE epoch: the four-digit year and the fractional day of the year. */
  datatype TleEpoch = TleEpoch(year: int, dayOfYear: real)

  /** Columns 19 to 32 of TLE line 1, `line1[18:32].strip()`. */
  function EpochField(line1: string): (field: string)
    ensures |field| <= 14
    ensures field != [] ==> !IsSpace(field[0]) && !IsSpace(field[|field| - 1])
  {
    Strip(Slice(line1, 18, 32))
  }

  /** The two-digit year pivot: 57 to 99 are 1957 to 1999, lower values are 20xx. */
  function FullYear(yearShort: int): (year: int)
    ensures yearShort < 57 ==> year == 2000 + yearShort
    ensures 57 <= yearShort ==> year == 1900 + yearShort
  {
    if yearShort < 57 then 2000 + yearShort else 1900 + yearShort
  }

  /** How `propagate_TLE` and the script at module level read the epoch of line
      1: the first two characters of the field are the year, the rest the day. */
  function ParseTleEpoch(line1: string): (r: Result<TleEpoch>)
    ensures var field := EpochField(line1);
            r.Ok? <==> ParseInt(Slice(field, 0, 2)).Ok? && ParseFloat(Slice(field, 2, |field|)).Ok?
    ensures r.Ok? ==>
      var field := EpochField(line1);
      r.value.year == FullYear(ParseInt(Slice(field, 0, 2)).value) &&
      r.value.dayOfYear == ParseFloat(Slice(field, 2, |field|)).value
    ensures var field := EpochField(line1);
      ParseInt(Slice(field, 0, 2)).Err? ==> r == Err(InvalidIntLiteral)
    ensures var field := EpochField(line1);
      ParseInt(Slice(field, 0, 2)).Ok? && ParseFloat(Slice(field, 2, |field|)).Err? ==> r == Err(InvalidFloatLiteral)
  {
    var field := EpochField(line1);
    var yearShort :- ParseInt(Slice(field, 0, 2));
    var dayOfYear :- ParseFloat(Slice(field, 2, |field|));
    Ok(TleEpoch(FullYear(yearShort), dayOfYear))
  }

  /** An epoch field whose second character is a separator raises at the year
      reading: `strip` leaves it in the field, and `int` does not skip it. */
  lemma SeparatorInYearRaises(line1: string)
    requires var field := EpochField(line1); 2 <= |field| && IsSeparator(field[1])
    ensures ParseTleEpoch(line1) == Err(InvalidIntLiteral)
  {
    var field := EpochField(line1);
    assert Slice(field, 0, 2)[1] == field[1];
  }

  /** Every two-digit year lands in 1957 to 2056. */
  lemma FullYearRange(yearShort: int)
    requires 0 <= yearShort <= 99
    ensures 1957 <= FullYear(yearShort) <= 2056
  {
  }

  /** Distinct two-digit years give distinct full years. */
  lemma FullYearInjective(a: int, b: int)
    requires 0 <= a <= 99 && 0 <= b <= 99
    requires FullYear(a) == FullYear(b)
    ensures a == b
  {
  }

  /** The pivot undoes `year % 100` on exactly the years 1957 to 2056. */
  lemma FullYearOfTwoDigitYear(year: int)
    ensures 1957 <= year <= 2056 <==> FullYear(year % 100) == year
  {
  }

  // ---- Writing TLE line 1 ----

  function TenTo(k: nat): (p: nat)
    ensures 1 <= p
  {
    if k == 0 then 1 else 10 * TenTo(k - 1)
  }

  function DigitChar(d: nat): (c: char)
    requires d < 10
    ensures IsDigit(c) && DigitValue(c) == d
  {
    (('0' as int) + d) as char
  }

  /** The decimal digits of `n` without leading zeros, Python's `str(n)`. */
  function Digits(n: nat): (s: string)
    ensures 1 <= |s| && AllDigits(s)
  {
    if n < 10 then [DigitChar(n)] else Digits(n / 10) + [DigitChar(n % 10)]
  }

  function Zeros(n: nat): (s: string)
    ensures |s| == n && forall k :: 0 <= k < n ==> s[k] == '0'
  {
    if n == 0 then "" else Zeros(n - 1) + "0"
  }

  /** Python's `f"{n:0Wd}"` for a non-negative `n`: the digits of `n`, padded
      on the left with zeros to at least `width` characters. */
  function ZeroPad(n: nat, width: nat): (s: string)
    ensures AllDigits(s) && 1 <= |s|
    ensures |s| == if |Digits(n)| < width then width else |Digits(n)|
  {
    var digits := Digits(n);
    if |digits| < width then Zeros(width - |digits|) + digits else digits
  }

  /** `f"{year:02d}"` of `year % 100`. */
  function TwoDigitYear(year: int): (t: string)
    ensures |t| == 2 && AllDigits(t) && DigitsValue(t) == year % 100
  {
    ZeroPadLength(year % 100, 2);
    ZeroPadValue(year % 100, 2);
    ZeroPad(year % 100, 2)
  }

  /** `f"{day:012.8f}"` of a day of the year already rounded to eight decimals:
      `day` whole days and `fraction` hundred-millionths of a day. */
  function DayOfYearText(day: nat, fraction: nat): (t: string)
    ensures fraction < 100000000 ==>
              |t| == |ZeroPad(day, 3)| + 9 && t[|t| - 9] == '.' &&
              (forall k :: 0 <= k < |t| && k != |t| - 9 ==> IsDigit(t[k]))
    ensures day < 1000 && fraction < 100000000 ==> |t| == 12
  {
    var whole, frac := ZeroPad(day, 3), ZeroPad(fraction, 8);
    assert day < 1000 ==> |whole| == 3 by {
      if day < 1000 { ZeroPadLength(day, 3); }
    }
    assert fraction < 100000000 ==> |frac| == 8 by {
      if fraction < 100000000 { ZeroPadLength(fraction, 8); }
    }
    PointTextShape(whole, frac);
    whole + "." + frac
  }

  /** Digits, a point, digits: the point is the only character that is not a digit. */
  lemma PointTextShape(whole: string, frac: string)
    requires AllDigits(whole) && AllDigits(frac)
    ensures var t := whole + "." + frac;
            |t| == |whole| + 1 + |frac| && t[|whole|] == '.' &&
            forall k :: 0 <= k < |t| && k != |whole| ==> IsDigit(t[k])
  {
    var t := whole + "." + frac;
    forall k | 0 <= k < |t| && k != |whole|
      ensures IsDigit(t[k])
    {
      if k < |whole| { assert t[k] == whole[k]; }
      else { assert t[k] == frac[k - |whole| - 1]; }
    }
  }

  /** The day of the year `DayOfYearText` denotes. */
  function DayOfYear(day: nat, fraction: nat): real
  {
    day as real + fraction as real / 100000000.0
  }

  /** The epoch field `write_tle_from_elements` writes into line 1. */
  function EpochText(year: int, day: nat, fraction: nat): (t: string)
    ensures day < 1000 && fraction < 100000000 ==>
              |t| == 14 && IsDigit(t[0]) && IsDigit(t[13])
  {
    var yy, dayText := TwoDigitYear(year), DayOfYearText(day, fraction);
    var t := yy + dayText;
    assert |dayText| > 0 ==> t[|t| - 1] == dayText[|dayText| - 1];
    t
  }

  /** Line 1 of the TLE `write_tle_from_elements` builds, with the epoch and
      drag-term text already formatted. */
  function Line1(satnum: nat, epochText: string, bstarText: string): (line: string)
    ensures satnum < 100000 ==>
              |line| == 47 + |epochText| + |bstarText| &&
              line[18..18 + |epochText|] == epochText
  {
    var prefix := "1 " + ZeroPad(satnum, 5) + "U 25001A   ";
    var rest := "  .00000000  00000-0 " + bstarText + " 0  9991";
    assert satnum < 100000 ==> |prefix| == 18 by {
      if satnum < 100000 { ZeroPadLength(satnum, 5); }
    }
    FieldBetween(prefix, epochText, rest);
    prefix + epochText + rest
  }

  /** With the 14-character epoch and the 7-character B* text the writer
      produces, line 1 is 68 characters long. */
  lemma Line1Length(satnum: nat, year: int, day: nat, fraction: nat, bstarText: string)
    requires satnum < 100000 && day < 1000 && fraction < 100000000 && |bstarText| == 7
    ensures |Line1(satnum, EpochText(year, day, fraction), bstarText)| == 68
  {
  }

  /** The middle of three joined texts sits right after the first. */
  lemma FieldBetween(prefix: string, field: string, rest: string)
    ensures var line := prefix + field + rest;
            |line| == |prefix| + |field| + |rest| &&
            line[|prefix|..|prefix| + |field|] == field
  {
    var line := prefix + field + rest;
    assert line[|prefix|..|prefix| + |field|] == field;
  }

  // ---- Reading back what was written ----

  /** Reading the digits of `n` gives `n` back. */
  lemma {:induction false} DigitsValueOfDigits(n: nat)
    ensures DigitsValue(Digits(n)) == n
  {
    if n < 10 {
      assert Digits(n)[..0] == [];
    } else {
      var d := Digits(n / 10);
      DigitsValueOfDigits(n / 10);
      assert (d + [DigitChar(n % 10)])[..|d|] == d;
    }
  }

  /** `n` has at most `k` digits when it is below ten to the `k`. */
  lemma {:induction false} DigitsLength(n: nat, k: nat)
    requires 1 <= k && n < TenTo(k)
    ensures |Digits(n)| <= k
  {
    if 10 <= n {
      assert TenTo(k) == 10 * TenTo(k - 1);
      DigitsLength(n / 10, k - 1);
    }
  }

  /** Leading zeros do not change the value of a digit string. */
  lemma {:induction false} LeadingZeros(z: nat, s: string)
    requires AllDigits(s)
    ensures AllDigits(Zeros(z) + s) && DigitsValue(Zeros(z) + s) == DigitsValue(s)
  {
    if s == [] {
      assert Zeros(z) + s == Zeros(z);
      ZerosValue(z);
    } else {
      var init := s[..|s| - 1];
      LeadingZeros(z, init);
      assert (Zeros(z) + s)[..|Zeros(z) + s| - 1] == Zeros(z) + init;
    }
  }

  lemma {:induction false} ZerosValue(z: nat)
    ensures AllDigits(Zeros(z)) && DigitsValue(Zeros(z)) == 0
  {
    if z > 0 {
      ZerosValue(z - 1);
      assert Zeros(z)[..z - 1] == Zeros(z - 1);
    }
  }

  /** Zero padding keeps the value. */
  lemma ZeroPadValue(n: nat, width: nat)
    ensures DigitsValue(ZeroPad(n, width)) == n
  {
    var digits := Digits(n);
    DigitsValueOfDigits(n);
    if |digits| < width {
      LeadingZeros(width - |digits|, digits);
      assert ZeroPad(n, width) == Zeros(width - |digits|) + digits;
    } else {
      assert ZeroPad(n, width) == digits;
    }
  }

  /** A number below ten to the `width` pads to exactly `width` characters. */
  lemma ZeroPadLength(n: nat, width: nat)
    requires 1 <= width && n < TenTo(width)
    ensures |ZeroPad(n, width)| == width
  {
    DigitsLength(n, width);
  }

  lemma {:induction false} LeadingDigitsOfConcat(a: string, b: string)
    requires AllDigits(a) && b != [] && !IsDigit(b[0])
    ensures LeadingDigits(a + b) == |a|
  {
    if a != [] {
      assert (a + b)[1..] == a[1..] + b;
      LeadingDigitsOfConcat(a[1..], b);
    } else {
      assert a + b == b;
    }
  }

  /** `int` reads back a two-digit year written with `02d`. */
  lemma ParseTwoDigitYear(n: nat)
    requires n < 100
    ensures ParseInt(ZeroPad(n, 2)) == Ok(n as int)
  {
    var t := ZeroPad(n, 2);
    ZeroPadLength(n, 2);
    assert IsDigit(t[0]) && IsDigit(t[1]);
    assert NoSeparators(t);
    StripUnchanged(t);
    assert SplitSign(Strip(t)) == (false, t);
    ZeroPadValue(n, 2);
  }

  /** Unsigned decimal text with no surrounding whitespace is read as
      its value. */
  lemma ParseUnsignedDecimal(t: string)
    requires t != [] && IsDigit(t[0]) && !IsSpace(t[|t| - 1]) && NoSeparators(t)
    requires DecimalValue(t).Some?
    ensures ParseFloat(t) == Ok(DecimalValue(t).value)
  {
    StripUnchanged(t);
    assert SplitSign(t) == (false, t);
  }

  /** Text after the leading digits that is a point and digits. */
  lemma PointValueOfFraction(whole: string, frac: string)
    requires AllDigits(whole) && AllDigits(frac) && whole != []
    ensures PointValue(whole, "." + frac) == Some(DigitsValue(whole) as real + FractionValue(frac))
  {
    assert ("." + frac)[1..] == frac;
  }

  /** `whole.frac` splits at the point. */
  lemma SplitAtPoint(whole: string, frac: string)
    requires AllDigits(whole)
    ensures var t := whole + "." + frac;
            LeadingDigits(t) == |whole| && t[..|whole|] == whole && t[|whole|..] == "." + frac
  {
    var rest := "." + frac;
    assert whole + "." + frac == whole + rest;
    LeadingDigitsOfConcat(whole, rest);
  }

  /** The value of `whole.frac`. */
  lemma DecimalValueOfPoint(whole: string, frac: string)
    requires AllDigits(whole) && AllDigits(frac) && whole != []
    ensures DecimalValue(whole + "." + frac)
              == Some(DigitsValue(whole) as real + FractionValue(frac))
  {
    SplitAtPoint(whole, frac);
    PointValueOfFraction(whole, frac);
  }

  lemma TenToTheEighth()
    ensures Pow(10.0, 8) == 100000000.0
  {
    assert Pow(10.0, 4) == 10000.0;
    assert Pow(10.0, 8) == 10.0 * (10.0 * (10.0 * (10.0 * Pow(10.0, 4))));
  }

  /** Eight digits after the point stand for hundred-millionths. */
  lemma EightDigitFraction(frac: string, n: nat)
    requires AllDigits(frac) && |frac| == 8 && DigitsValue(frac) == n
    ensures FractionValue(frac) == n as real / 100000000.0
  {
    TenToTheEighth();
  }

  /** `float` reads back a day of the year written with `012.8f`. */
  lemma ParseDayOfYear(day: nat, fraction: nat)
    requires day < 1000 && fraction < 100000000
    ensures ParseFloat(DayOfYearText(day, fraction)) == Ok(DayOfYear(day, fraction))
  {
    DayOfYearTextEnds(day, fraction);
    DayOfYearTextValue(day, fraction);
    ParseUnsignedDecimal(DayOfYearText(day, fraction));
  }

  /** The text of a day of the year starts with a digit, ends with one and
      holds no separator. */
  lemma DayOfYearTextEnds(day: nat, fraction: nat)
    ensures var t := DayOfYearText(day, fraction);
            t != [] && IsDigit(t[0]) && !IsSpace(t[|t| - 1]) && NoSeparators(t)
  {
    var whole := ZeroPad(day, 3);
    var frac := ZeroPad(fraction, 8);
    PointTextShape(whole, frac);
  }

  /** The text of a day of the year is decimal text denoting that day. */
  lemma DayOfYearTextValue(day: nat, fraction: nat)
    requires fraction < 100000000
    ensures DecimalValue(DayOfYearText(day, fraction)) == Some(DayOfYear(day, fraction))
  {
    var whole, frac := ZeroPad(day, 3), ZeroPad(fraction, 8);
    var value := DigitsValue(whole) as real + FractionValue(frac);
    assert DecimalValue(whole + "." + frac) == Some(value) by {
      DecimalValueOfPoint(whole, frac);
    }
    assert value == DayOfYear(day, fraction) by {
      PaddedDayValue(day, fraction);
    }
  }

  /** The zero-padded whole days and hundred-millionths denote the day. */
  lemma PaddedDayValue(day: nat, fraction: nat)
    requires fraction < 100000000
    ensures DigitsValue(ZeroPad(day, 3)) as real + FractionValue(ZeroPad(fraction, 8)) == DayOfYear(day, fraction)
  {
    var frac := ZeroPad(fraction, 8);
    ZeroPadLength(fraction, 8);
    ZeroPadValue(day, 3);
    ZeroPadValue(fraction, 8);
    EightDigitFraction(frac, fraction);
  }

  /** Columns 19 to 32 of the written line 1 are exactly the epoch text. */
  lemma EpochFieldOfLine1(satnum: nat, epochText: string, bstarText: string)
    requires satnum < 100000
    requires |epochText| == 14 && !IsSpace(epochText[0]) && !IsSpace(epochText[13])
    ensures EpochField(Line1(satnum, epochText, bstarText)) == epochText
  {
    ZeroPadLength(satnum, 5);
    var line := Line1(satnum, epochText, bstarText);
    var prefix := "1 " + ZeroPad(satnum, 5) + "U 25001A   ";
    assert line == prefix + epochText + ("  .00000000  00000-0 " + bstarText + " 0  9991");
    assert Slice(line, 18, 32) == epochText;
    StripUnchanged(epochText);
  }

  /** The epoch written into a field reads back as the same year and day. */
  lemma EpochOfEpochText(line1: string, year: int, day: nat, fraction: nat)
    requires 1957 <= year <= 2056 && day < 1000 && fraction < 100000000
    requires EpochField(line1) == EpochText(year, day, fraction)
    ensures ParseTleEpoch(line1) == Ok(TleEpoch(year, DayOfYear(day, fraction)))
  {
    EpochYearOfText(year, day, fraction);
    EpochDayOfText(year, day, fraction);
    FullYearOfTwoDigitYear(year);
    var r := ParseTleEpoch(line1);
    assert r.Ok? && r.value.year == year;
  }

  /** The first two characters of the epoch text read back as the two-digit year. */
  lemma EpochYearOfText(year: int, day: nat, fraction: nat)
    ensures var text := EpochText(year, day, fraction);
            ParseInt(Slice(text, 0, 2)) == Ok(year % 100)
  {
    ZeroPadLength(year % 100, 2);
    assert Slice(EpochText(year, day, fraction), 0, 2) == TwoDigitYear(year);
    ParseTwoDigitYear(year % 100);
  }

  /** The rest of the epoch text reads back as the day of the year. */
  lemma EpochDayOfText(year: int, day: nat, fraction: nat)
    requires day < 1000 && fraction < 100000000
    ensures var text := EpochText(year, day, fraction);
            ParseFloat(Slice(text, 2, |text|)) == Ok(DayOfYear(day, fraction))
  {
    var text := EpochText(year, day, fraction);
    assert Slice(text, 2, |text|) == DayOfYearText(day, fraction) by {
      ZeroPadLength(year % 100, 2);
      assert text[2..] == DayOfYearText(day, fraction);
    }
    ParseDayOfYear(day, fraction);
  }

  /** What `write_tle_from_elements` writes as the epoch, the epoch reading
      of `propagate_TLE` gets back: the same year, for every year from 1957 to
      2056, and the same day of the year. */
  lemma TleEpochRoundTrip(satnum: nat, year: int, day: nat, fraction: nat, bstarText: string)
    requires satnum < 100000
    requires 1957 <= year <= 2056 && day < 1000 && fraction < 100000000
    ensures ParseTleEpoch(Line1(satnum, EpochText(year, day, fraction), bstarText))
              == Ok(TleEpoch(year, DayOfYear(day, fraction)))
  {
    var text := EpochText(year, day, fraction);
    assert !IsSpace(text[0]) && !IsSpace(text[13]);
    EpochFieldOfLine1(satnum, text, bstarText);
    EpochOfEpochText(Line1(satnum, text, bstarText), year, day, fraction);
  }
}
