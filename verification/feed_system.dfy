/** Feed-system sizing: propellant tanks, pressurant bottles, feed-line
    losses and the tank pressure budget (resa_pro/core/feed_system.py). */
module FeedSystem {
  import opened Common
  import opened RealArith

  /** Universal gas constant [J/(mol K)]. */
  const R_UNIVERSAL: real := 8.31446261815324

  // ---------------------------------------------------------------- tanks

  datatype TankDesign = TankDesign(
    propellant: string,
    propellantMass: real,
    propellantVolume: real,
    ullageFraction: real,
    totalVolume: real,
    tankPressure: real,
    innerDiameter: real,
    innerRadius: real,
    cylinderLength: real,
    wallThickness: real,
    tankMass: real,
    material: string)

  function Cube(x: real): (r: real)
    ensures r == x * x * x
    ensures x > 0.0 ==> r > 0.0
  {
    Mul(Sq(x), x)
  }

  /** Length of the cylindrical section between two hemispherical caps:
      whatever volume the caps do not hold, spread over the cross-section;
      zero for a non-positive radius or when the caps alone suffice. */
  function CylinderLength(totalVolume: real, ri: real): (l: real)
    ensures l >= 0.0
    ensures ri <= 0.0 ==> l == 0.0
    ensures ri > 0.0 ==> l * (PI * Sq(ri)) == Max(totalVolume - (4.0 / 3.0) * PI * Cube(ri), 0.0)
  {
    var vCyl := Max(totalVolume - (4.0 / 3.0) * PI * Cube(ri), 0.0);
    if ri > 0.0 then
      PosMulPos(PI, Sq(ri));
      vCyl / (PI * Sq(ri))
    else 0.0
  }

  /** Thin-wall hoop-stress thickness P * Ri * SF / sigma_y. */
  function WallThickness(pressure: real, ri: real, safetyFactor: real, yieldStrength: real): (t: real)
    requires yieldStrength != 0.0
    ensures t * yieldStrength == pressure * ri * safetyFactor
  {
    (pressure * ri * safetyFactor) / yieldStrength
  }

  /** Sizes a cylindrical tank with hemispherical end caps. */
  function SizeTank(propellantMass: real, propellantDensity: real, tankPressure: real,
                    innerDiameter: real, yieldStrength: real, materialDensity: real,
                    safetyFactor: real, ullageFraction: real,
                    propellantName: string, materialName: string): (t: TankDesign)
    requires propellantDensity != 0.0 && ullageFraction != 1.0 && yieldStrength != 0.0
    ensures t.propellant == propellantName && t.material == materialName
    ensures t.propellantMass == propellantMass && t.tankPressure == tankPressure
    ensures t.innerDiameter == innerDiameter && t.innerRadius * 2.0 == innerDiameter
    ensures t.ullageFraction == ullageFraction
    ensures t.propellantVolume * propellantDensity == propellantMass
    ensures t.totalVolume * (1.0 - ullageFraction) == t.propellantVolume
    ensures t.cylinderLength == CylinderLength(t.totalVolume, t.innerRadius) && t.cylinderLength >= 0.0
    ensures t.wallThickness == WallThickness(tankPressure, t.innerRadius, safetyFactor, yieldStrength)
    ensures var ro := t.innerRadius + t.wallThickness;
            t.tankMass == (PI * (Sq(ro) - Sq(t.innerRadius)) * t.cylinderLength
                           + (4.0 / 3.0) * PI * (Cube(ro) - Cube(t.innerRadius))) * materialDensity
  {
    var ri := innerDiameter / 2.0;
    var vProp := propellantMass / propellantDensity;
    var vTotal := vProp / (1.0 - ullageFraction);
    var l := CylinderLength(vTotal, ri);
    var tWall := WallThickness(tankPressure, ri, safetyFactor, yieldStrength);
    var ro := ri + tWall;
    var mass := (PI * (Sq(ro) - Sq(ri)) * l + (4.0 / 3.0) * PI * (Cube(ro) - Cube(ri))) * materialDensity;
    TankDesign(propellantName, propellantMass, vProp, ullageFraction, vTotal, tankPressure,
               innerDiameter, ri, l, tWall, mass, materialName)
  }

  /** Ullage makes the tank strictly larger than the propellant it holds. */
  lemma UllageEnlargesTank(propellantMass: real, propellantDensity: real, tankPressure: real,
                           innerDiameter: real, yieldStrength: real, materialDensity: real,
                           safetyFactor: real, ullageFraction: real, pn: string, mn: string)
    requires propellantMass > 0.0 && propellantDensity > 0.0 && yieldStrength != 0.0
    requires 0.0 < ullageFraction < 1.0
    ensures var t := SizeTank(propellantMass, propellantDensity, tankPressure, innerDiameter, yieldStrength,
                              materialDensity, safetyFactor, ullageFraction, pn, mn);
            t.totalVolume > t.propellantVolume > 0.0
  {
    var t := SizeTank(propellantMass, propellantDensity, tankPressure, innerDiameter, yieldStrength,
                      materialDensity, safetyFactor, ullageFraction, pn, mn);
    PosDivPos(propellantMass, propellantDensity);
    DivByLargerStrict(t.propellantVolume, 1.0 - ullageFraction, 1.0);
  }

  /** The wall gets strictly thicker with the tank pressure (positive
      radius, safety factor and yield strength). */
  lemma WallThickensWithPressure(p1: real, p2: real, ri: real, safetyFactor: real, yieldStrength: real)
    requires p1 < p2 && ri > 0.0 && safetyFactor > 0.0 && yieldStrength > 0.0
    ensures WallThickness(p1, ri, safetyFactor, yieldStrength) < WallThickness(p2, ri, safetyFactor, yieldStrength)
  {
    MulPosStrictMono(p1, p2, ri);
    MulPosStrictMono(p1 * ri, p2 * ri, safetyFactor);
    DivPosStrictMono(p1 * ri * safetyFactor, p2 * ri * safetyFactor, yieldStrength);
  }

  // ----------------------------------------------------------- pressurant

  datatype PressurantDesign = PressurantDesign(
    gas: string,
    pressurantMass: real,
    bottleVolume: real,
    bottlePressureInitial: real,
    bottlePressureFinal: real,
    blowdownRatio: real)

  /** Specific gas constant R / M. */
  function GasConstant(molarMass: real): (r: real)
    requires molarMass != 0.0
    ensures r * molarMass == R_UNIVERSAL && r != 0.0
  {
    R_UNIVERSAL / molarMass
  }

  /** Ideal-gas mass P V / (R_gas T). */
  function GasMass(pressure: real, volume: real, molarMass: real, temperature: real): (m: real)
    requires molarMass != 0.0 && temperature != 0.0
    ensures m * R_UNIVERSAL * temperature == pressure * volume * molarMass
  {
    var rGas := GasConstant(molarMass);
    var m := pressure * volume / (rGas * temperature);
    assert m * (rGas * temperature) == pressure * volume;
    assert m * R_UNIVERSAL * temperature == m * (rGas * temperature) * molarMass;
    m
  }

  /** Blowdown: the gas that fills the tank at the final pressure, stored
      at `blowdownRatio` times that pressure. */
  function SizePressurantBlowdown(tankVolume: real, tankPressure: real, molarMass: real,
                                  temperature: real, blowdownRatio: real, gasName: string): (d: PressurantDesign)
    requires molarMass != 0.0 && temperature != 0.0 && blowdownRatio * tankPressure != 0.0
    ensures d.gas == gasName && d.blowdownRatio == blowdownRatio
    ensures d.bottlePressureFinal == tankPressure
    ensures d.bottlePressureInitial == blowdownRatio * tankPressure
    ensures d.pressurantMass * R_UNIVERSAL * temperature == tankPressure * tankVolume * molarMass
    ensures d.bottleVolume * blowdownRatio == tankVolume
  {
    var pFinal := tankPressure;
    var pInitial := blowdownRatio * pFinal;
    var rGas := GasConstant(molarMass);
    var m := GasMass(pFinal, tankVolume, molarMass, temperature);
    var v := m * rGas * temperature / pInitial;
    StoredVolume(m, rGas, temperature, pFinal, tankVolume, molarMass, pInitial);
    assert (v * blowdownRatio - tankVolume) * pFinal == 0.0;
    PressurantDesign(gasName, m, v, pInitial, pFinal, blowdownRatio)
  }

  /** The gas of mass m stored at pressure `denom` occupies a volume
      that, times `denom`, gives back p * V. */
  lemma StoredVolume(m: real, rGas: real, temperature: real, p: real, volume: real,
                     molarMass: real, denom: real)
    requires rGas * molarMass == R_UNIVERSAL && molarMass != 0.0 && denom != 0.0
    requires m * R_UNIVERSAL * temperature == p * volume * molarMass
    ensures (m * rGas * temperature / denom) * denom == p * volume
  {
    assert m * rGas * temperature * molarMass == p * volume * molarMass;
    assert m * rGas * temperature == p * volume;
  }

  /** Doubling (or any scaling of) the molar mass scales the blowdown gas
      mass by the same factor. */
  lemma BlowdownMassProportionalToMolarMass(tankVolume: real, tankPressure: real, molarMass: real,
                                            temperature: real, blowdownRatio: real, k: real, gasName: string)
    requires molarMass != 0.0 && k != 0.0 && temperature != 0.0 && blowdownRatio * tankPressure != 0.0
    ensures SizePressurantBlowdown(tankVolume, tankPressure, k * molarMass, temperature, blowdownRatio, gasName).pressurantMass
            == k * SizePressurantBlowdown(tankVolume, tankPressure, molarMass, temperature, blowdownRatio, gasName).pressurantMass
  {
    var m1 := SizePressurantBlowdown(tankVolume, tankPressure, molarMass, temperature, blowdownRatio, gasName).pressurantMass;
    var m2 := SizePressurantBlowdown(tankVolume, tankPressure, k * molarMass, temperature, blowdownRatio, gasName).pressurantMass;
    var c := R_UNIVERSAL * temperature;
    assert c != 0.0;
    ScaledSolution(m1, m2, c, tankPressure * tankVolume * molarMass, k);
  }

  lemma ScaledSolution(m1: real, m2: real, c: real, b: real, k: real)
    requires c != 0.0 && m1 * c == b && m2 * c == k * b
    ensures m2 == k * m1
  {
    assert (m2 - k * m1) * c == 0.0;
  }

  /** Regulated: the bottle's usable pressure range must deliver the gas
      that fills the tank at the regulated pressure. */
  function SizePressurantRegulated(tankVolume: real, regulatedPressure: real, bottlePressure: real,
                                   minBottlePressure: real, molarMass: real, temperature: real,
                                   gasName: string): (d: PressurantDesign)
    requires molarMass != 0.0 && temperature != 0.0
    requires bottlePressure != minBottlePressure && minBottlePressure != 0.0
    ensures d.gas == gasName
    ensures d.bottleVolume * (bottlePressure - minBottlePressure) == regulatedPressure * tankVolume
    ensures d.blowdownRatio * minBottlePressure == bottlePressure
    ensures d.bottlePressureInitial == bottlePressure && d.bottlePressureFinal == minBottlePressure
    ensures d.pressurantMass * R_UNIVERSAL * temperature == bottlePressure * d.bottleVolume * molarMass
  {
    var rGas := GasConstant(molarMass);
    var delivered := GasMass(regulatedPressure, tankVolume, molarMass, temperature);
    var usable := bottlePressure - minBottlePressure;
    var v := delivered * rGas * temperature / usable;
    StoredVolume(delivered, rGas, temperature, regulatedPressure, tankVolume, molarMass, usable);
    var mTotal := GasMass(bottlePressure, v, molarMass, temperature);
    PressurantDesign(gasName, mTotal, v, bottlePressure, minBottlePressure, bottlePressure / minBottlePressure)
  }

  // ------------------------------------------------------------ feed line

  /** Turbulent (Swamee-Jain) friction factor as a function of relative
      roughness and Reynolds number; its log10 and power are not modelled. */
  type FrictionFn = (real, real) -> real

  datatype FeedLineResult = FeedLineResult(
    length: real,
    innerDiameter: real,
    velocity: real,
    reynolds: real,
    frictionDp: real,
    minorDp: real,
    gravityDp: real,
    totalDp: real)

  /** Cross-section pi (D/2)^2: positive exactly when D is non-zero. */
  function PipeArea(diameter: real): (a: real)
    ensures a >= 0.0
    ensures a > 0.0 <==> diameter != 0.0
  {
    Mul(PI, Sq(diameter / 2.0))
  }

  /** Bulk velocity m / (rho A), zero when the area is not positive. */
  function PipeVelocity(massFlow: real, rho: real, diameter: real): (v: real)
    requires PipeArea(diameter) > 0.0 ==> rho != 0.0
    ensures PipeArea(diameter) > 0.0 ==> v * (rho * PipeArea(diameter)) == massFlow
    ensures PipeArea(diameter) <= 0.0 ==> v == 0.0
  {
    var a := PipeArea(diameter);
    if a > 0.0 then massFlow / (rho * a) else 0.0
  }

  /** Reynolds number rho v D / mu, zero for a non-positive viscosity. */
  function Reynolds(rho: real, v: real, diameter: real, mu: real): (re: real)
    ensures mu > 0.0 ==> re * mu == rho * v * diameter
    ensures mu <= 0.0 ==> re == 0.0
  {
    if mu > 0.0 then rho * v * diameter / mu else 0.0
  }

  /** Darcy friction factor: 64 / max(Re, 1) in laminar flow (Re < 2300),
      the turbulent correlation otherwise. */
  function DarcyFriction(re: real, relRoughness: real, turbulent: FrictionFn): (f: real)
    ensures re < 2300.0 ==> f * Max(re, 1.0) == 64.0 && f > 0.0
    ensures re >= 2300.0 ==> f == turbulent(relRoughness, re)
  {
    if re < 2300.0 then 64.0 / Max(re, 1.0) else turbulent(relRoughness, re)
  }

  /** Dynamic pressure 0.5 rho v^2. */
  function DynamicPressure(rho: real, v: real): (q: real)
    ensures rho >= 0.0 ==> q >= 0.0
    ensures rho > 0.0 && v != 0.0 ==> q > 0.0
  {
    0.5 * Mul(rho, Sq(v))
  }

  /** Friction, minor and hydrostatic losses in one feed line. */
  function FeedLinePressureDrop(massFlow: real, rho: real, mu: real, diameter: real, length: real,
                                heightChange: real, kMinor: real, roughness: real,
                                turbulent: FrictionFn): (r: FeedLineResult)
    requires diameter != 0.0 && rho != 0.0
    ensures r.length == length && r.innerDiameter == diameter
    ensures r.velocity == PipeVelocity(massFlow, rho, diameter)
    ensures r.reynolds == Reynolds(rho, r.velocity, diameter, mu)
    ensures r.frictionDp == DarcyFriction(r.reynolds, roughness / diameter, turbulent) * (length / diameter)
                            * DynamicPressure(rho, r.velocity)
    ensures r.minorDp == kMinor * DynamicPressure(rho, r.velocity)
    ensures r.gravityDp == rho * G0 * heightChange
    ensures r.totalDp == r.frictionDp + r.minorDp + r.gravityDp
  {
    var v := PipeVelocity(massFlow, rho, diameter);
    var re := Reynolds(rho, v, diameter, mu);
    var f := DarcyFriction(re, roughness / diameter, turbulent);
    var q := DynamicPressure(rho, v);
    var dpF := f * (length / diameter) * q;
    var dpM := kMinor * q;
    var dpG := rho * G0 * heightChange;
    FeedLineResult(length, diameter, v, re, dpF, dpM, dpG, dpF + dpM + dpG)
  }

  /** Climbing costs pressure: the hydrostatic term is positive for upward
      flow of a positive-density fluid and vanishes on the level. */
  lemma GravityLossSign(massFlow: real, rho: real, mu: real, diameter: real, length: real,
                        heightChange: real, kMinor: real, roughness: real, turbulent: FrictionFn)
    requires diameter != 0.0 && rho > 0.0
    ensures heightChange > 0.0 ==>
              FeedLinePressureDrop(massFlow, rho, mu, diameter, length, heightChange, kMinor, roughness, turbulent).gravityDp > 0.0
    ensures heightChange == 0.0 ==>
              FeedLinePressureDrop(massFlow, rho, mu, diameter, length, heightChange, kMinor, roughness, turbulent).gravityDp == 0.0
  {
    if heightChange > 0.0 {
      PosMulPos(rho, G0);
      PosMulPos(rho * G0, heightChange);
    }
  }

  /** With a positive friction factor and a moving fluid in a pipe of
      positive diameter, a longer line loses strictly more pressure. */
  lemma LongerLineLosesMore(massFlow: real, rho: real, mu: real, diameter: real, l1: real, l2: real,
                            heightChange: real, kMinor: real, roughness: real, turbulent: FrictionFn)
    requires diameter > 0.0 && rho > 0.0 && l1 < l2
    requires PipeVelocity(massFlow, rho, diameter) != 0.0
    requires DarcyFriction(Reynolds(rho, PipeVelocity(massFlow, rho, diameter), diameter, mu),
                           roughness / diameter, turbulent) > 0.0
    ensures FeedLinePressureDrop(massFlow, rho, mu, diameter, l1, heightChange, kMinor, roughness, turbulent).totalDp
            < FeedLinePressureDrop(massFlow, rho, mu, diameter, l2, heightChange, kMinor, roughness, turbulent).totalDp
  {
    var r1 := FeedLinePressureDrop(massFlow, rho, mu, diameter, l1, heightChange, kMinor, roughness, turbulent);
    var r2 := FeedLinePressureDrop(massFlow, rho, mu, diameter, l2, heightChange, kMinor, roughness, turbulent);
    var f := DarcyFriction(r1.reynolds, roughness / diameter, turbulent);
    var q := DynamicPressure(rho, r1.velocity);
    FrictionLossGrowsWithLength(f, q, diameter, l1, l2, r1.frictionDp, r2.frictionDp);
  }

  /** f (L / D) q grows strictly with L for positive f, q and D. */
  lemma FrictionLossGrowsWithLength(f: real, q: real, diameter: real, l1: real, l2: real, d1: real, d2: real)
    requires f > 0.0 && q > 0.0 && diameter > 0.0 && l1 < l2
    requires d1 == f * (l1 / diameter) * q && d2 == f * (l2 / diameter) * q
    ensures d1 < d2
  {
    DivPosStrictMono(l1, l2, diameter);
    MulPosStrictMono(l1 / diameter, l2 / diameter, f);
    assert f * (l1 / diameter) < f * (l2 / diameter);
    MulPosStrictMono(f * (l1 / diameter), f * (l2 / diameter), q);
  }

  // ------------------------------------------------------- pressure budget

  datatype PressureBudget = PressureBudget(
    chamberPressure: real,
    injectorDp: real,
    feedLineDp: real,
    coolingDp: real,
    valveDp: real,
    requiredTankPressure: real,
    margin: real)

  /** The tank pressure that covers the chamber pressure and every loss
      downstream, plus a fractional margin on that sum. */
  function ComputePressureBudget(chamberPressure: real, injectorDp: real, feedLineDp: real,
                                 coolingDp: real, valveDp: real, marginFraction: real): (b: PressureBudget)
    ensures b.chamberPressure == chamberPressure && b.injectorDp == injectorDp
    ensures b.feedLineDp == feedLineDp && b.coolingDp == coolingDp && b.valveDp == valveDp
    ensures b.requiredTankPressure
            == (1.0 + marginFraction) * (chamberPressure + injectorDp + feedLineDp + coolingDp + valveDp)
    ensures b.requiredTankPressure - b.margin == chamberPressure + injectorDp + feedLineDp + coolingDp + valveDp
    ensures marginFraction == 0.0 ==>
              b.requiredTankPressure == chamberPressure + injectorDp + feedLineDp + coolingDp + valveDp
  {
    var subtotal := chamberPressure + injectorDp + feedLineDp + coolingDp + valveDp;
    var margin := marginFraction * subtotal;
    PressureBudget(chamberPressure, injectorDp, feedLineDp, coolingDp, valveDp, subtotal + margin, margin)
  }

  /** A larger margin fraction strictly raises the required tank pressure when
      the losses sum to something positive. */
  lemma MarginRaisesTankPressure(pc: real, inj: real, feed: real, cool: real, valve: real, m1: real, m2: real)
    requires pc + inj + feed + cool + valve > 0.0 && m1 < m2
    ensures ComputePressureBudget(pc, inj, feed, cool, valve, m1).requiredTankPressure
            < ComputePressureBudget(pc, inj, feed, cool, valve, m2).requiredTankPressure
  {
    MulPosStrictMonoAt(1.0 + m1, 1.0 + m2, pc + inj + feed + cool + valve,
                       ComputePressureBudget(pc, inj, feed, cool, valve, m1).requiredTankPressure,
                       ComputePressureBudget(pc, inj, feed, cool, valve, m2).requiredTankPressure);
  }
}
