/** The mitigation page's physics: the asteroid's mass, the velocity change
    (delta-V) each deflection method imparts, the first-order change of the
    miss distance, and the year-long Euler propagation of the deflected orbit.
    Numbers are exact reals; square root and natural logarithm are the
    host's Math.sqrt and Math.log, passed in as functions. */
module Mitigation {
  import opened Approaches

  const G: real := 6.674e-11
  const MSun: real := 1.989e30
  /** Metres per astronomical unit. */
  const AuM: real := 1.496e11
  /** Math.PI. */
  const Pi: real := 3.141592653589793
  const SecondsPerYear: real := 365.25 * 24.0 * 3600.0
  /** A miss distance above three Earth radii counts as safe. */
  const SafeMissKm: real := EarthRadiusKm * 3.0
  /** Joules per megaton of TNT. */
  const JoulesPerMegaton: real := 4.184e15
  const LaserExhaustSpeed: real := 1000.0
  const NuclearExhaustSpeed: real := 10000.0
  /** One Euler step is one day. */
  const StepSeconds: real := 86400.0
  const Days: nat := 365

  /** The part of an asteroid record the physics reads. */
  datatype Asteroid = Asteroid(diameterM: real, densityKgM3: real, closeApproaches: seq<Approach>)

  /** A deflection method with its slider values. */
  datatype Method =
    | Kinetic(impactorMassKg: real, impactVelocityKms: real, beta: real)
    | GravityTractor(spacecraftMassKg: real, distanceM: real, durationYears: real)
    | LaserAblation(laserPowerMW: real, efficiencyPct: real, durationYears: real)
    | NuclearDeflection(yieldMT: real, standoffM: real, couplingPct: real)

  /** Why a delta-V is not a finite number (the page would show Infinity or
      NaN). */
  datatype Failure =
    | ZeroMass               // a division by the asteroid's mass of 0
    | ZeroDistance           // the gravity tractor hovering at distance 0
    | AblationExceedsMass    // the laser's logarithm argument is not a positive finite number
    | NegativeRadicand       // the nuclear square root of a negative number

  datatype Result<T> = Ok(value: T) | Err(failure: Failure)

  datatype MissChange = MissChange(original: real, newMiss: real, change: real, safe: bool)

  datatype MitigationResult = MitigationResult(deltaV: real, missChange: MissChange)

  // ---------------------------------------------------------------------
  // Mass
  // ---------------------------------------------------------------------

  /** `a * b`, kept behind a function so that the solver treats a square
      or a cube as a product of separate factors. */
  function Product(a: real, b: real): real { a * b }

  function Square(x: real): real { Product(x, x) }

  function Cube(x: real): real { Product(Product(x, x), x) }

  lemma NonNegativeProduct(a: real, b: real)
    requires a >= 0.0 && b >= 0.0
    ensures Product(a, b) >= 0.0
  {
  }

  lemma PositiveProduct(a: real, b: real)
    requires a > 0.0 && b > 0.0
    ensures Product(a, b) > 0.0
  {
  }

  lemma ProductNonZero(a: real, b: real)
    requires a != 0.0 && b != 0.0
    ensures Product(a, b) != 0.0
  {
    if a > 0.0 && b > 0.0 { } else if a < 0.0 && b < 0.0 { } else { }
  }

  /** Growing either non-negative factor never shrinks a product. */
  lemma ProductIsMonotone(a1: real, a2: real, b1: real, b2: real)
    requires 0.0 <= a1 <= a2 && 0.0 <= b1 <= b2
    ensures Product(a1, b1) <= Product(a2, b2)
  {
    NonNegativeProduct(a2 - a1, b1);
    NonNegativeProduct(a2, b2 - b1);
    assert Product(a2, b1) - Product(a1, b1) == Product(a2 - a1, b1);
    assert Product(a2, b2) - Product(a2, b1) == Product(a2, b2 - b1);
  }

  lemma QuotientAboveOne(a: real, b: real)
    requires 0.0 < b < a
    ensures a / b > 1.0
  {
    var q := a / b;
    assert q * b == a;
  }

  /** The sign of a product of two factors of known sign. */
  lemma ProductSign(a: real, b: real)
    ensures a >= 0.0 && b >= 0.0 ==> Product(a, b) >= 0.0
    ensures a > 0.0 && b > 0.0 ==> Product(a, b) > 0.0
  {
    if a > 0.0 && b > 0.0 {
      PositiveProduct(a, b);
    } else if a >= 0.0 && b >= 0.0 {
      NonNegativeProduct(a, b);
    }
  }

  lemma CubeSign(x: real)
    ensures x >= 0.0 ==> Cube(x) >= 0.0
    ensures x > 0.0 ==> Cube(x) > 0.0
  {
    ProductSign(x, x);
    ProductSign(Product(x, x), x);
  }

  /** The mass of a homogeneous sphere: (4/3) pi r^3 times the density. */
  function Mass(radius: real, density: real): (m: real)
    ensures radius >= 0.0 && density >= 0.0 ==> m >= 0.0
    ensures radius > 0.0 && density > 0.0 ==> m > 0.0
  {
    var volume := (4.0 / 3.0) * Pi * Cube(radius);
    CubeSign(radius);
    ProductSign(volume, density);
    Product(volume, density)
  }

  /** A larger or denser sphere is never lighter. */
  lemma MassIsMonotone(r1: real, r2: real, d1: real, d2: real)
    requires 0.0 <= r1 <= r2 && 0.0 <= d1 <= d2
    ensures Mass(r1, d1) <= Mass(r2, d2)
  {
    ProductIsMonotone(r1, r2, r1, r2);
    NonNegativeProduct(r1, r1);
    ProductIsMonotone(Product(r1, r1), Product(r2, r2), r1, r2);
    NonNegativeProduct(Product(r1, r1), r1);
    ProductIsMonotone((4.0 / 3.0) * Pi * Cube(r1), (4.0 / 3.0) * Pi * Cube(r2), d1, d2);
  }

  /** A one-metre sphere of density 1000 weighs about 4188.79 kg. */
  lemma MassOfUnitSphere()
    ensures 4188.79 < Mass(1.0, 1000.0) < 4188.80
  {
  }

  function AsteroidMass(a: Asteroid): (m: real)
    ensures a.diameterM >= 0.0 && a.densityKgM3 >= 0.0 ==> m >= 0.0
  {
    Mass(a.diameterM / 2.0, a.densityKgM3)
  }

  // ---------------------------------------------------------------------
  // Delta-V of each method
  // ---------------------------------------------------------------------

  /** Kinetic impactor: the impactor's momentum, enhanced by beta, is
      transferred to the asteroid; the speed slider is in km/s. */
  function KineticDeltaV(mass: real, impactorMass: real, impactVelocityKms: real, beta: real): (r: Result<real>)
    ensures r.Ok? <==> mass != 0.0
    ensures r.Ok? ==> mass * r.value == beta * impactorMass * (impactVelocityKms * 1000.0)
  {
    if mass == 0.0 then Err(ZeroMass)
    else
      var vImpact := impactVelocityKms * 1000.0;
      Ok((beta * impactorMass * vImpact) / mass)
  }

  /** The default kinetic impactor against a 1e9 kg asteroid. */
  lemma KineticDefaultExample()
    ensures KineticDeltaV(1e9, 500.0, 6.6, 3.6) == Ok(0.01188)
  {
  }

  lemma SquareNonZero(x: real)
    requires x != 0.0
    ensures Square(x) != 0.0
  {
    ProductNonZero(x, x);
  }

  /** Multiplying by `m` and then dividing by `m` cancels:
      (g * c * m / q) / m * (y * k) == g * c * (y * k) / q. */
  lemma QuotientCancel(g: real, c: real, m: real, q: real, y: real, k: real)
    requires m != 0.0 && q != 0.0
    ensures (g * c * m / q) / m * (y * k) == g * c * (y * k) / q
  {
    var a := g * c;
    var t := y * k;
    var f := a * m / q;
    assert f * q == a * m;
    var h := f / m;
    assert h * m == f;
    assert (h * q) * m == a * m;
    assert h * q == a;
    assert h * t == a * t / q;
  }

  /** Newton's attraction between the spacecraft and the asteroid. */
  function TractorForce(mass: real, spacecraftMass: real, distance: real): (f: real)
    requires distance != 0.0
    ensures f * Square(distance) == G * spacecraftMass * mass
    ensures spacecraftMass > 0.0 && mass > 0.0 ==> f > 0.0
  {
    SquareNonZero(distance);
    G * spacecraftMass * mass / Square(distance)
  }

  /** Gravity tractor: the acceleration F / mass acting for the whole
      duration. */
  function GravityDeltaV(mass: real, spacecraftMass: real, distance: real, durationYears: real): (r: Result<real>)
    ensures r.Ok? <==> distance != 0.0 && mass != 0.0
    ensures distance == 0.0 ==> r == Err(ZeroDistance)
    ensures distance != 0.0 && mass == 0.0 ==> r == Err(ZeroMass)
  {
    if distance == 0.0 then Err(ZeroDistance)
    else if mass == 0.0 then Err(ZeroMass)
    else
      var tSeconds := durationYears * SecondsPerYear;
      var a := TractorForce(mass, spacecraftMass, distance) / mass;
      Ok(a * tSeconds)
  }

  /** The asteroid's mass cancels: the tractor's delta-V is
      G * m_sc * t / d^2 whatever the asteroid weighs. */
  lemma GravityDeltaVIgnoresMass(mass: real, spacecraftMass: real, distance: real, durationYears: real)
    requires distance != 0.0 && mass != 0.0
    ensures Square(distance) != 0.0
    ensures GravityDeltaV(mass, spacecraftMass, distance, durationYears)
         == Ok(G * spacecraftMass * (durationYears * SecondsPerYear) / Square(distance))
  {
    SquareNonZero(distance);
    QuotientCancel(G, spacecraftMass, mass, Square(distance), durationYears, SecondsPerYear);
    assert TractorForce(mass, spacecraftMass, distance) / mass * (durationYears * SecondsPerYear)
      == G * spacecraftMass * (durationYears * SecondsPerYear) / Square(distance);
  }

  /** The mass the laser removes over the whole duration. */
  function LaserEjectedMass(laserPowerMW: real, efficiencyPct: real, durationYears: real): (m: real)
    ensures laserPowerMW >= 0.0 && efficiencyPct >= 0.0 && durationYears >= 0.0 ==> m >= 0.0
  {
    var p := laserPowerMW * 1e6;
    var eta := efficiencyPct / 100.0;
    var tSeconds := durationYears * SecondsPerYear;
    var massRate := (2.0 * eta * p) / (LaserExhaustSpeed * LaserExhaustSpeed);
    massRate * tSeconds
  }

  /** Laser ablation: the rocket equation with exhaust speed 1000 m/s.
      Removing as much mass as the asteroid has (or more) leaves the
      logarithm without a positive finite argument. */
  function LaserDeltaV(mass: real, laserPowerMW: real, efficiencyPct: real, durationYears: real,
                       ln: real -> real): (r: Result<real>)
    ensures mass > 0.0 ==> (r.Ok? <==> LaserEjectedMass(laserPowerMW, efficiencyPct, durationYears) < mass)
    ensures mass == 0.0 ==> r == Err(ZeroMass)
  {
    var ejected := LaserEjectedMass(laserPowerMW, efficiencyPct, durationYears);
    if mass == 0.0 then Err(ZeroMass)
    else if mass - ejected == 0.0 then Err(AblationExceedsMass)
    else
      var ratio := mass / (mass - ejected);
      if ratio <= 0.0 then Err(AblationExceedsMass)
      else Ok(LaserExhaustSpeed * ln(ratio))
  }

  /** When the laser removes some but not all of the mass, the logarithm's
      argument exceeds 1, so with the real logarithm the delta-V is positive. */
  lemma LaserDeltaVIsPositive(mass: real, laserPowerMW: real, efficiencyPct: real, durationYears: real,
                              ln: real -> real)
    requires mass > 0.0
    requires 0.0 < LaserEjectedMass(laserPowerMW, efficiencyPct, durationYears) < mass
    requires forall x :: x > 1.0 ==> ln(x) > 0.0
    ensures LaserDeltaV(mass, laserPowerMW, efficiencyPct, durationYears, ln).Ok?
    ensures LaserDeltaV(mass, laserPowerMW, efficiencyPct, durationYears, ln).value > 0.0
  {
    var ejected := LaserEjectedMass(laserPowerMW, efficiencyPct, durationYears);
    var rest := mass - ejected;
    assert 0.0 < rest < mass;
    QuotientAboveOne(mass, rest);
  }

  /** Nuclear deflection: the coupled energy ejects material at 10 km/s. */
  function NuclearDeltaV(mass: real, yieldMT: real, standoffM: real, couplingPct: real,
                         sqrt: real -> real): (r: Result<real>)
    ensures r.Ok? <==> mass != 0.0 && 2.0 * (yieldMT * JoulesPerMegaton * (couplingPct / 100.0)) * mass >= 0.0
  {
    var y := yieldMT * JoulesPerMegaton;
    var eEff := y * (couplingPct / 100.0);
    var radicand := 2.0 * eEff * mass;
    if radicand < 0.0 then Err(NegativeRadicand)
    else
      var ejected := sqrt(radicand) / NuclearExhaustSpeed;
      if mass == 0.0 then Err(ZeroMass)
      else Ok((ejected * NuclearExhaustSpeed) / mass)
  }

  /** `m * (a/m) * (b/m) == a * b / m`. */
  lemma ProductOfQuotients(a: real, b: real, m: real)
    requires m != 0.0
    ensures m * Product(a / m, b / m) == Product(a, b) / m
  {
    var p, q := a / m, b / m;
    assert p * m == a;
    assert q * m == b;
    assert (m * (p * q)) * m == (p * m) * (q * m);
  }

  /** The radicand of the nuclear square root, 2 * E_eff * mass. */
  function NuclearRadicand(mass: real, yieldMT: real, couplingPct: real): real {
    2.0 * (yieldMT * JoulesPerMegaton * (couplingPct / 100.0)) * mass
  }

  /** With the real square root, the kinetic energy the asteroid gains,
      mass * dv^2 / 2, is exactly the coupled energy; the standoff distance
      plays no part. */
  lemma NuclearEnergyBalance(mass: real, yieldMT: real, standoffM: real, couplingPct: real,
                             sqrt: real -> real)
    requires mass > 0.0 && yieldMT >= 0.0 && couplingPct >= 0.0
    requires Square(sqrt(NuclearRadicand(mass, yieldMT, couplingPct))) == NuclearRadicand(mass, yieldMT, couplingPct)
    ensures NuclearDeltaV(mass, yieldMT, standoffM, couplingPct, sqrt).Ok?
    ensures mass * Square(NuclearDeltaV(mass, yieldMT, standoffM, couplingPct, sqrt).value) / 2.0
         == yieldMT * JoulesPerMegaton * (couplingPct / 100.0)
  {
    var e := yieldMT * JoulesPerMegaton * (couplingPct / 100.0);
    var x := NuclearRadicand(mass, yieldMT, couplingPct);
    NonNegativeProduct(yieldMT, JoulesPerMegaton);
    NonNegativeProduct(yieldMT * JoulesPerMegaton, couplingPct / 100.0);
    NonNegativeProduct(2.0 * e, mass);
    assert x >= 0.0;
    var s := sqrt(x);
    assert s / NuclearExhaustSpeed * NuclearExhaustSpeed == s;
    assert NuclearDeltaV(mass, yieldMT, standoffM, couplingPct, sqrt) == Ok(s / mass);
    ProductOfQuotients(s, s, mass);
    assert mass * Square(s / mass) == x / mass;
    assert x / mass == 2.0 * e;
  }

  /** The `calculate` entry of each method. */
  function DeltaV(m: Method, mass: real, sqrt: real -> real, ln: real -> real): (r: Result<real>)
    ensures r.Err? && !m.LaserAblation? && !m.NuclearDeflection? ==> r.failure == ZeroMass || r.failure == ZeroDistance
  {
    match m
    case Kinetic(impactorMass, v, beta) => KineticDeltaV(mass, impactorMass, v, beta)
    case GravityTractor(sc, d, years) => GravityDeltaV(mass, sc, d, years)
    case LaserAblation(power, eff, years) => LaserDeltaV(mass, power, eff, years, ln)
    case NuclearDeflection(yieldMT, standoff, coupling) => NuclearDeltaV(mass, yieldMT, standoff, coupling, sqrt)
  }

  // ---------------------------------------------------------------------
  // Miss distance
  // ---------------------------------------------------------------------

  /** Years from the simulated date to the approach (negative when it lies
      in the past). */
  function YearsUntil(approach: Approach, currentDate: int): (y: real)
    ensures y * (SecondsPerYear * 1000.0) == (approach.dateMs - currentDate) as real
    ensures y > 0.0 <==> approach.dateMs > currentDate
    ensures y == 0.0 <==> approach.dateMs == currentDate
  {
    (approach.dateMs - currentDate) as real / (SecondsPerYear * 1000.0)
  }

  /** The linear estimate: a velocity change applied now displaces the
      asteroid by deltaV times the time left before the approach. */
  function MissDistance(deltaV: real, approach: Approach, currentDate: int): (r: MissChange)
    ensures r.original == approach.missKm
    ensures r.newMiss == r.original + r.change
    ensures r.safe <==> r.newMiss > SafeMissKm
  {
    var missKm := approach.missKm;
    var yearsUntil := YearsUntil(approach, currentDate);
    var deflectionM := deltaV * yearsUntil * SecondsPerYear;
    var deflectionKm := deflectionM / 1000.0;
    MissChange(missKm, missKm + deflectionKm, deflectionKm, (missKm + deflectionKm) > SafeMissKm)
  }

  /** The year conversion cancels: the change in km is deltaV (m/s) times
      the milliseconds left, over a million. */
  lemma MissChangeIsLinear(deltaV: real, approach: Approach, currentDate: int)
    ensures MissDistance(deltaV, approach, currentDate).change
         == deltaV * (approach.dateMs - currentDate) as real / 1000000.0
  {
    var ms := (approach.dateMs - currentDate) as real;
    var k := SecondsPerYear * 1000.0;
    assert YearsUntil(approach, currentDate) * k == ms;
    calc {
      deltaV * YearsUntil(approach, currentDate) * SecondsPerYear / 1000.0;
      deltaV * (YearsUntil(approach, currentDate) * k) / 1000000.0;
      deltaV * ms / 1000000.0;
    }
  }

  /** The change has the sign of deltaV times the years left, and is zero
      exactly when no delta-V is applied or the approach is now. */
  lemma MissChangeSign(deltaV: real, approach: Approach, currentDate: int)
    ensures var c := MissDistance(deltaV, approach, currentDate).change;
      && (c > 0.0 <==> deltaV * YearsUntil(approach, currentDate) > 0.0)
      && (c < 0.0 <==> deltaV * YearsUntil(approach, currentDate) < 0.0)
      && (c == 0.0 <==> deltaV == 0.0 || approach.dateMs == currentDate)
  {
    var y := YearsUntil(approach, currentDate);
    var c := MissDistance(deltaV, approach, currentDate).change;
    assert c == (deltaV * y) * (SecondsPerYear / 1000.0);
    assert y == 0.0 <==> approach.dateMs == currentDate;
  }

  /** What the "apply" button computes for a method and an approach. */
  function Calculate(m: Method, a: Asteroid, approach: Approach, currentDate: int,
                     sqrt: real -> real, ln: real -> real): (r: Result<MitigationResult>)
    ensures r.Err? <==> DeltaV(m, AsteroidMass(a), sqrt, ln).Err?
    ensures r.Ok? ==> r.value.deltaV == DeltaV(m, AsteroidMass(a), sqrt, ln).value
    ensures r.Ok? ==> r.value.missChange.original == approach.missKm
    ensures r.Ok? ==> (r.value.missChange.safe <==> approach.missKm + r.value.missChange.change > SafeMissKm)
    ensures r.Ok? ==> r.value.missChange == MissDistance(r.value.deltaV, approach, currentDate)
  {
    match DeltaV(m, AsteroidMass(a), sqrt, ln)
    case Err(f) => Err(f)
    case Ok(dv) => Ok(MitigationResult(dv, MissDistance(dv, approach, currentDate)))
  }

  // ---------------------------------------------------------------------
  // Orbit propagation
  // ---------------------------------------------------------------------

  datatype Vec3 = Vec3(x: real, y: real, z: real)

  function Scale(v: Vec3, k: real): Vec3 { Vec3(v.x * k, v.y * k, v.z * k) }
  function Add(u: Vec3, v: Vec3): Vec3 { Vec3(u.x + v.x, u.y + v.y, u.z + v.z) }
  function NormSquared(v: Vec3): real { v.x * v.x + v.y * v.y + v.z * v.z }

  /** The integrator's state, position in metres and velocity in m/s. A
      division by zero makes the page's numbers NaN: `NaNVelocity` is a
      finite position with a NaN velocity (it spreads to the position at the
      next step), `Diverged` is NaN everywhere, for good. */
  datatype Phase =
    | Phase(pos: Vec3, vel: Vec3)
    | NaNVelocity(pos: Vec3)
    | Diverged

  /** One recorded day of the propagated orbit, position in AU. */
  datatype OrbitSample =
    | Sample(x: real, y: real, z: real, day: int)
    | NaNSample(day: int)

  /** The deflection: every velocity component is scaled by
      (v_orbital + deltaV) / v_orbital, v_orbital being the circular speed at
      the current radius. */
  function InitialPhase(position: Vec3, velocity: Vec3, deltaV: real, sqrt: real -> real): (ph: Phase)
    ensures !ph.Diverged? && ph.pos == Scale(position, AuM)
    ensures ph.NaNVelocity? <==> var r := sqrt(NormSquared(Scale(position, AuM)));
      r == 0.0 || sqrt(G * MSun / r) == 0.0
  {
    var p := Scale(position, AuM);
    var r := sqrt(NormSquared(p));
    if r == 0.0 then NaNVelocity(p)
    else
      var vOrbital := sqrt(G * MSun / r);
      if vOrbital == 0.0 then NaNVelocity(p)
      else Phase(p, Scale(velocity, (vOrbital + deltaV) / vOrbital))
  }

  /** The deflected velocity keeps the direction of the given one (all
      cross-product components vanish), and no delta-V leaves it as given. */
  lemma InitialVelocityIsUniformlyScaled(position: Vec3, velocity: Vec3, deltaV: real, sqrt: real -> real)
    ensures var ph := InitialPhase(position, velocity, deltaV, sqrt);
      ph.Phase? ==>
        && ph.vel.x * velocity.y == ph.vel.y * velocity.x
        && ph.vel.y * velocity.z == ph.vel.z * velocity.y
        && ph.vel.z * velocity.x == ph.vel.x * velocity.z
        && (deltaV == 0.0 ==> ph.vel == velocity)
  {
    var ph := InitialPhase(position, velocity, deltaV, sqrt);
    if ph.Phase? {
      var p := Scale(position, AuM);
      var vOrbital := sqrt(G * MSun / sqrt(NormSquared(p)));
      var k := (vOrbital + deltaV) / vOrbital;
      assert ph.vel == Scale(velocity, k);
      assert deltaV == 0.0 ==> k == 1.0;
    }
  }

  /** One forward-Euler day under the Sun's gravity: velocity first, then
      position with the new velocity. */
  function Step(ph: Phase, sqrt: real -> real): (r: Phase)
    ensures !r.NaNVelocity?
    ensures r.Phase? <==> ph.Phase? && sqrt(NormSquared(ph.pos)) != 0.0
    ensures r.Phase? ==> r.pos == Add(ph.pos, Scale(r.vel, StepSeconds))
  {
    match ph
    case Diverged => Diverged
    case NaNVelocity(_) => Diverged
    case Phase(p, v) =>
      var r := sqrt(NormSquared(p));
      if r == 0.0 then Diverged
      else
        var accMag := -G * MSun / (r * r);
        var acc := Vec3(accMag * p.x / r, accMag * p.y / r, accMag * p.z / r);
        var v' := Add(v, Scale(acc, StepSeconds));
        var p' := Add(p, Scale(v', StepSeconds));
        Phase(p', v')
  }

  /** The state after `n` applications of `step`. */
  function Iterate(step: Phase -> Phase, init: Phase, n: nat): Phase
    decreases n
  {
    if n == 0 then init else step(Iterate(step, init, n - 1))
  }

  function DailyStep(sqrt: real -> real): Phase -> Phase {
    ph => Step(ph, sqrt)
  }

  /** The integrator's state after `n` days. */
  function PhaseAfter(init: Phase, n: nat, sqrt: real -> real): Phase {
    Iterate(DailyStep(sqrt), init, n)
  }

  function SampleOf(ph: Phase, day: int): (s: OrbitSample)
    ensures s.day == day
    ensures s.NaNSample? <==> ph.Diverged?
  {
    match ph
    case Phase(p, _) => Sample(p.x / AuM, p.y / AuM, p.z / AuM, day)
    case NaNVelocity(p) => Sample(p.x / AuM, p.y / AuM, p.z / AuM, day)
    case Diverged => NaNSample(day)
  }

  /** Once the numbers are NaN they stay NaN. */
  lemma {:induction false} DivergedIsPermanent(init: Phase, i: nat, j: nat, sqrt: real -> real)
    requires i <= j
    requires PhaseAfter(init, i, sqrt).Diverged?
    ensures PhaseAfter(init, j, sqrt).Diverged?
  {
    if i < j {
      DivergedIsPermanent(init, i, j - 1, sqrt);
      assert PhaseAfter(init, j, sqrt) == Step(PhaseAfter(init, j - 1, sqrt), sqrt);
    }
  }

  /** The first sample is the starting position, whatever the delta-V. */
  lemma FirstSampleIsStart(position: Vec3, velocity: Vec3, deltaV: real, sqrt: real -> real)
    ensures SampleOf(PhaseAfter(InitialPhase(position, velocity, deltaV, sqrt), 0, sqrt), 0)
         == Sample(position.x, position.y, position.z, 0)
  {
    var init := InitialPhase(position, velocity, deltaV, sqrt);
    assert !init.Diverged?;
    assert init.pos == Scale(position, AuM);
  }

  /** The integration loop of calculateNewOrbit: `days` samples, each taken
      before the step that follows it. */
  method Propagate(step: Phase -> Phase, init: Phase, days: nat) returns (samples: seq<OrbitSample>)
    ensures |samples| == days
    ensures forall i :: 0 <= i < |samples| ==> samples[i] == SampleOf(Iterate(step, init, i), i)
  {
    var ph := init;
    samples := [];
    var day := 0;
    while day < days
      invariant 0 <= day <= days
      invariant |samples| == day
      invariant ph == Iterate(step, init, day)
      invariant forall i :: 0 <= i < day ==> samples[i] == SampleOf(Iterate(step, init, i), i)
    {
      samples := samples + [SampleOf(ph, day)];
      ph := step(ph);
      day := day + 1;
    }
  }

  /** calculateNewOrbit: a year of daily samples of the deflected orbit,
      recorded before each step (so the first is the starting position, by
      `FirstSampleIsStart`). */
  method CalculateNewOrbit(position: Vec3, velocity: Vec3, deltaV: real, sqrt: real -> real)
    returns (samples: seq<OrbitSample>)
    ensures |samples| == Days
    ensures forall i :: 0 <= i < |samples| ==> samples[i].day == i
    ensures forall i :: 0 <= i < |samples| ==>
      samples[i] == SampleOf(PhaseAfter(InitialPhase(position, velocity, deltaV, sqrt), i, sqrt), i)
  {
    samples := Propagate(DailyStep(sqrt), InitialPhase(position, velocity, deltaV, sqrt), Days);
  }
}
