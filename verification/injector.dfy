/** Injector sizing: the orifice equation and its inverse, the injection
    velocity, the oxidizer/fuel split, pressure drops, element counts and
    diameters, the momentum ratio and the stability checks
    (resa_pro/core/injector.py). The square root is a parameter that obeys
    the law of a square root. */
module Injector {
  import opened Common
  import opened RealArith

  type SqrtFn = real -> real

  /** `sqrt` returns the non-negative root of every non-negative argument. */
  ghost predicate IsSqrt(sqrt: SqrtFn)
  {
    forall x: real {:trigger sqrt(x)} :: x >= 0.0 ==> sqrt(x) >= 0.0 && Sq(sqrt(x)) == x
  }

  /** The root of a positive number is positive. */
  lemma SqrtPos(sqrt: SqrtFn, x: real)
    requires IsSqrt(sqrt) && x >= 0.0
    ensures x > 0.0 ==> sqrt(x) > 0.0
  {
    assert Sq(sqrt(x)) == x;
  }

  /** The root is strictly increasing. */
  lemma SqrtStrictMono(sqrt: SqrtFn, x: real, y: real)
    requires IsSqrt(sqrt) && 0.0 <= x < y
    ensures sqrt(x) < sqrt(y)
  {
    var a, b := sqrt(x), sqrt(y);
    assert Sq(a) == x && Sq(b) == y;
    if a >= b {
      SqMono(b, a);
      assert false;
    }
  }

  /** Mass flow through one orifice, mdot = Cd . A . sqrt(2 rho dp). */
  function OrificeMassFlow(cd: real, area: real, dp: real, rho: real, sqrt: SqrtFn): (m: real)
    requires IsSqrt(sqrt) && 2.0 * rho * dp >= 0.0
    ensures cd >= 0.0 && area >= 0.0 ==> m >= 0.0
    ensures Sq(m) == Sq(cd * area) * (2.0 * rho * dp)
  {
    var s := sqrt(2.0 * rho * dp);
    assert Sq(s) == 2.0 * rho * dp;
    assert Sq(cd * area * s) == Sq(cd * area) * Sq(s) by {
      assert Sq(cd * area * s) == Mul(cd * area * s, cd * area * s);
    }
    Mul(cd * area, s)
  }

  /** Total orifice area for a mass flow, A = mdot / (Cd . sqrt(2 rho dp)). */
  function OrificeAreaFromFlow(massFlow: real, cd: real, dp: real, rho: real, sqrt: SqrtFn): (a: real)
    requires IsSqrt(sqrt) && 2.0 * rho * dp >= 0.0 && cd * sqrt(2.0 * rho * dp) != 0.0
    ensures a * (cd * sqrt(2.0 * rho * dp)) == massFlow
  {
    massFlow / (cd * sqrt(2.0 * rho * dp))
  }

  /** For positive Cd, rho and dp the area formula inverts the orifice
      equation, in both directions. */
  lemma AreaInvertsMassFlow(cd: real, area: real, massFlow: real, dp: real, rho: real, sqrt: SqrtFn)
    requires IsSqrt(sqrt) && cd > 0.0 && rho > 0.0 && dp > 0.0
    ensures cd * sqrt(2.0 * rho * dp) != 0.0
    ensures OrificeAreaFromFlow(OrificeMassFlow(cd, area, dp, rho, sqrt), cd, dp, rho, sqrt) == area
    ensures OrificeMassFlow(cd, OrificeAreaFromFlow(massFlow, cd, dp, rho, sqrt), dp, rho, sqrt) == massFlow
  {
    var s := sqrt(2.0 * rho * dp);
    SqrtPos(sqrt, 2.0 * rho * dp);
    PosMulPos(cd, s);
    var m := OrificeMassFlow(cd, area, dp, rho, sqrt);
    assert m == cd * area * s;
    var a := OrificeAreaFromFlow(m, cd, dp, rho, sqrt);
    assert a * (cd * s) == area * (cd * s);
    var a2 := OrificeAreaFromFlow(massFlow, cd, dp, rho, sqrt);
    assert OrificeMassFlow(cd, a2, dp, rho, sqrt) == a2 * (cd * s);
  }

  /** A larger pressure drop drives a strictly larger flow through the same
      orifice. */
  lemma MassFlowIncreasesWithDp(cd: real, area: real, dp1: real, dp2: real, rho: real, sqrt: SqrtFn)
    requires IsSqrt(sqrt) && cd > 0.0 && area > 0.0 && rho > 0.0 && 0.0 <= dp1 < dp2
    ensures OrificeMassFlow(cd, area, dp1, rho, sqrt) < OrificeMassFlow(cd, area, dp2, rho, sqrt)
  {
    MulPosStrictMono(dp1, dp2, 2.0 * rho);
    var x1, x2 := 2.0 * rho * dp1, 2.0 * rho * dp2;
    assert 0.0 <= x1 < x2;
    SqrtStrictMono(sqrt, x1, x2);
    PosMulPos(cd, area);
    MulLtMono(sqrt(x1), sqrt(x2), cd * area);
    MulComm(sqrt(x1), cd * area);
    MulComm(sqrt(x2), cd * area);
  }

  /** Injection velocity v = Cd . sqrt(2 dp / rho). */
  function InjectionVelocity(cd: real, dp: real, rho: real, sqrt: SqrtFn): (v: real)
    requires IsSqrt(sqrt) && rho != 0.0 && 2.0 * dp / rho >= 0.0
    ensures cd >= 0.0 ==> v >= 0.0
    ensures cd > 0.0 && dp / rho > 0.0 ==> v > 0.0
    ensures Sq(v) == Sq(cd) * (2.0 * dp / rho)
  {
    var s := sqrt(2.0 * dp / rho);
    assert Sq(s) == 2.0 * dp / rho;
    SqrtPos(sqrt, 2.0 * dp / rho);
    assert Sq(cd * s) == Sq(cd) * Sq(s) by {
      assert Sq(cd * s) == Mul(cd * s, cd * s);
    }
    Mul(cd, s)
  }

  /** A larger pressure drop gives a strictly faster injection. */
  lemma VelocityIncreasesWithDp(cd: real, dp1: real, dp2: real, rho: real, sqrt: SqrtFn)
    requires IsSqrt(sqrt) && cd > 0.0 && rho > 0.0 && 0.0 <= dp1 < dp2
    ensures InjectionVelocity(cd, dp1, rho, sqrt) < InjectionVelocity(cd, dp2, rho, sqrt)
  {
    DivPosStrictMono(2.0 * dp1, 2.0 * dp2, rho);
    DivPosMono(0.0, 2.0 * dp1, rho);
    var x1, x2 := 2.0 * dp1 / rho, 2.0 * dp2 / rho;
    assert 0.0 <= x1 < x2;
    SqrtStrictMono(sqrt, x1, x2);
    MulLtMono(sqrt(x1), sqrt(x2), cd);
    MulComm(sqrt(x1), cd);
    MulComm(sqrt(x2), cd);
  }

  /** How the caller fixes one side's elements: by count, by diameter, or
      not at all (1.5 mm target elements). */
  datatype ElementChoice = ByCount(count: int) | ByDiameter(diameter: real) | Target

  /** One orifice: diameter, area, discharge coefficient, velocity. */
  datatype InjectorElement = InjectorElement(diameter: real, area: real, cd: real, velocity: real)

  /** The 1.5 mm target element diameter. */
  const TARGET_DIAMETER: real := 0.0015

  /** Area of a round orifice of diameter d. */
  function CircleArea(d: real): (a: real)
    ensures a >= 0.0 && (a == 0.0 <==> d == 0.0)
  {
    Mul(PI, Sq(d / 2.0))
  }

  /** Element count from a total and a per-element area: Python's
      max(1, round(A_total / A_elem)). */
  function CountFromArea(totalArea: real, elementArea: real): (n: int)
    requires elementArea != 0.0
    ensures n >= 1
    ensures n > 1 ==> n as real - 0.5 <= totalArea / elementArea <= n as real + 0.5
  {
    var k := RoundHalfEven(totalArea / elementArea);
    if 1 >= k then 1 else k
  }

  /** The diameter of a round orifice of area a: 2 . sqrt(a / pi). */
  function DiameterFromArea(a: real, sqrt: SqrtFn): (d: real)
    requires IsSqrt(sqrt) && a >= 0.0
    ensures d >= 0.0 && CircleArea(d) == a
  {
    var s := sqrt(a / PI);
    assert Sq(s) == a / PI;
    assert Sq(2.0 * s / 2.0) == Sq(s);
    2.0 * s
  }

  /** The per-element area of one side before any diameter is taken. */
  function ElementArea(totalArea: real, choice: ElementChoice): real
    requires choice.ByCount? ==> choice.count != 0
  {
    match choice
    case ByCount(n) => totalArea / n as real
    case ByDiameter(d) => CircleArea(d)
    case Target => totalArea / CountFromArea(totalArea, CircleArea(TARGET_DIAMETER)) as real
  }

  /** What one side needs to size without a Python error: a non-zero count,
      a non-zero diameter, and a non-negative area under the square root. */
  predicate SideSizable(totalArea: real, choice: ElementChoice)
  {
    match choice
    case ByCount(n) => n != 0 && totalArea / n as real >= 0.0
    case ByDiameter(d) => d != 0.0
    case Target => totalArea >= 0.0
  }

  /** `count` elements of `area` each together make up the total area. */
  predicate Covers(count: int, area: real, totalArea: real)
  {
    area * count as real == totalArea
  }

  /** A given count is kept; the diameter follows from the area it leaves
      per element. */
  function SizeByCount(totalArea: real, n: int, sqrt: SqrtFn): (r: (int, real, real))
    requires IsSqrt(sqrt) && n != 0 && totalArea / n as real >= 0.0
    ensures r.0 == n && r.2 == totalArea / n as real && Covers(r.0, r.2, totalArea)
    ensures CircleArea(r.1) == r.2
  {
    DivMulCancel(totalArea, n as real);
    (n, DiameterFromArea(totalArea / n as real, sqrt), totalArea / n as real)
  }

  /** A given diameter is kept; the count is max(1, round(A_total / A_elem)). */
  function SizeByDiameter(totalArea: real, d: real): (r: (int, real, real))
    requires d != 0.0
    ensures r.0 >= 1 && r.1 == d && r.2 == CircleArea(d)
  {
    (CountFromArea(totalArea, CircleArea(d)), d, CircleArea(d))
  }

  /** Neither given: the count comes from 1.5 mm elements and the diameter
      from the area each then receives. */
  function SizeTarget(totalArea: real, sqrt: SqrtFn): (r: (int, real, real))
    requires IsSqrt(sqrt) && totalArea >= 0.0
    ensures r.0 == CountFromArea(totalArea, CircleArea(TARGET_DIAMETER))
    ensures r.0 >= 1 && r.2 == totalArea / r.0 as real && Covers(r.0, r.2, totalArea)
    ensures CircleArea(r.1) == r.2
  {
    var n := CountFromArea(totalArea, CircleArea(TARGET_DIAMETER));
    DivMulCancel(totalArea, n as real);
    DivPosMono(0.0, totalArea, n as real);
    (n, DiameterFromArea(totalArea / n as real, sqrt), totalArea / n as real)
  }

  /** One side's element layout: a given count is kept and the diameter
      follows from the area it leaves per element; a given diameter is kept
      and the count is max(1, round(A_total / A_elem)); with neither, the count
      comes from 1.5 mm elements and the diameter from the resulting area.
      The element's area is always that of its diameter. */
  function SizeSide(totalArea: real, choice: ElementChoice, sqrt: SqrtFn): (r: (int, real, real))
    requires IsSqrt(sqrt) && SideSizable(totalArea, choice)
    ensures choice.ByCount? ==> r.0 == choice.count && Covers(r.0, r.2, totalArea)
    ensures choice.ByDiameter? ==> r.0 >= 1 && r.1 == choice.diameter
    ensures choice.Target? ==> r.0 >= 1 && Covers(r.0, r.2, totalArea)
    ensures r.2 == ElementArea(totalArea, choice)
    ensures CircleArea(r.1) == r.2
  {
    match choice
    case ByCount(n) => SizeByCount(totalArea, n, sqrt)
    case ByDiameter(d) => SizeByDiameter(totalArea, d)
    case Target => SizeTarget(totalArea, sqrt)
  }

  /** The operating point of an injector design: the flow split, the
      drops and the manifold pressures (the record fields that need no
      orifice geometry). */
  datatype OperatingPoint = OperatingPoint(
    massFlowOxidizer: real,
    massFlowFuel: real,
    dpOxidizer: real,
    dpFuel: real,
    dpFractionOx: real,
    dpFractionFuel: real,
    manifoldPressureOx: real,
    manifoldPressureFuel: real)

  /** The complete injector design record; the operating point fields are
      grouped in `point`. */
  datatype InjectorDesign = InjectorDesign(
    point: OperatingPoint,
    mixtureRatio: real,
    chamberPressure: real,
    elementsOx: int,
    elementOx: InjectorElement,
    elementsFuel: int,
    elementFuel: InjectorElement,
    momentumRatio: Extended)

  /** The caller's inputs to the injector design. */
  datatype InjectorInputs = InjectorInputs(
    massFlow: real,
    mixtureRatio: real,
    chamberPressure: real,
    rhoOxidizer: real,
    rhoFuel: real,
    dpFraction: real,
    dpFractionOx: Option<real>,
    dpFractionFuel: Option<real>,
    cdOx: real,
    cdFuel: real,
    choiceOx: ElementChoice,
    choiceFuel: ElementChoice)

  /** The defaults of the source: 20 % drop, Cd 0.65, 1.5 mm elements. */
  function DefaultInputs(massFlow: real, mixtureRatio: real, chamberPressure: real,
                         rhoOxidizer: real, rhoFuel: real): (i: InjectorInputs)
    ensures i.dpFraction == 0.2 && i.dpFractionOx == None && i.dpFractionFuel == None
    ensures i.cdOx == 0.65 && i.cdFuel == 0.65 && i.choiceOx == Target && i.choiceFuel == Target
  {
    InjectorInputs(massFlow, mixtureRatio, chamberPressure, rhoOxidizer, rhoFuel, 0.2, None, None,
                   0.65, 0.65, Target, Target)
  }

  /** Oxidizer share of the total flow, mdot . MR / (1 + MR). */
  function OxidizerFlow(massFlow: real, mixtureRatio: real): real
    requires 1.0 + mixtureRatio != 0.0
  {
    massFlow * mixtureRatio / (1.0 + mixtureRatio)
  }

  /** Fuel share of the total flow, mdot / (1 + MR). */
  function FuelFlow(massFlow: real, mixtureRatio: real): real
    requires 1.0 + mixtureRatio != 0.0
  {
    massFlow / (1.0 + mixtureRatio)
  }

  /** The split conserves the total and holds the mixture ratio. */
  lemma FlowSplit(massFlow: real, mixtureRatio: real)
    requires 1.0 + mixtureRatio != 0.0
    ensures OxidizerFlow(massFlow, mixtureRatio) + FuelFlow(massFlow, mixtureRatio) == massFlow
    ensures OxidizerFlow(massFlow, mixtureRatio) == mixtureRatio * FuelFlow(massFlow, mixtureRatio)
  {
    var q := 1.0 + mixtureRatio;
    assert massFlow * mixtureRatio / q + massFlow / q == (massFlow * mixtureRatio + massFlow) / q;
    assert massFlow * mixtureRatio + massFlow == massFlow * q;
  }

  /** The drop fraction used on one side: the override if given. */
  function DropFraction(override: Option<real>, default: real): (f: real)
    ensures override.Some? ==> f == override.value
    ensures override.None? ==> f == default
  {
    if override.Some? then override.value else default
  }

  /** What one side needs to be designed without a Python error: a positive
      rho . dp under the square roots, a non-zero Cd, and a sizable layout. */
  predicate SideDesignable(mdot: real, cd: real, dp: real, rho: real, choice: ElementChoice, sqrt: SqrtFn)
    requires IsSqrt(sqrt)
    ensures SideDesignable(mdot, cd, dp, rho, choice, sqrt) ==>
              2.0 * rho * dp > 0.0 && cd * sqrt(2.0 * rho * dp) != 0.0
  {
    rho * dp > 0.0 && cd != 0.0
    && (SqrtPos(sqrt, 2.0 * rho * dp);
        NonzeroProduct(cd, sqrt(2.0 * rho * dp));
        SideSizable(OrificeAreaFromFlow(mdot, cd, dp, rho, sqrt), choice))
  }

  /** rho . dp > 0 puts 2 dp / rho above zero. */
  lemma InjectionPositive(rho: real, dp: real)
    requires rho * dp > 0.0
    ensures rho != 0.0 && 2.0 * dp / rho > 0.0
  {
    if rho < 0.0 {
      assert dp < 0.0;
      assert 2.0 * dp / rho == (-2.0 * dp) / (-rho);
    }
  }

  /** One side of the injector: its element count and element. A given
      count is kept, otherwise there is at least one element; a given
      diameter is kept; the element's area is that of its diameter; unless
      the diameter was given, the elements together have exactly the orifice
      area the side's flow needs; the velocity is the injection velocity of
      the side. */
  function DesignSide(mdot: real, cd: real, dp: real, rho: real, choice: ElementChoice, sqrt: SqrtFn)
    : (r: (int, InjectorElement))
    requires IsSqrt(sqrt) && SideDesignable(mdot, cd, dp, rho, choice, sqrt)
    ensures choice.ByCount? ==> r.0 == choice.count
    ensures !choice.ByCount? ==> r.0 >= 1
    ensures choice.ByDiameter? ==> r.1.diameter == choice.diameter
    ensures CircleArea(r.1.diameter) == r.1.area
    ensures !choice.ByDiameter? ==> Covers(r.0, r.1.area, OrificeAreaFromFlow(mdot, cd, dp, rho, sqrt))
    ensures r.1.cd == cd
    ensures rho != 0.0 && 2.0 * dp / rho >= 0.0 && r.1.velocity == InjectionVelocity(cd, dp, rho, sqrt)
  {
    var x := 2.0 * rho * dp;
    SqrtPos(sqrt, x);
    var s := sqrt(x);
    NonzeroProduct(cd, s);
    var total := OrificeAreaFromFlow(mdot, cd, dp, rho, sqrt);
    var side := SizeSide(total, choice, sqrt);
    InjectionPositive(rho, dp);
    (side.0, InjectorElement(side.1, side.2, cd, InjectionVelocity(cd, dp, rho, sqrt)))
  }

  /** Oxidizer pressure drop: the oxidizer (or default) fraction of Pc. */
  function OxidizerDrop(i: InjectorInputs): real
  {
    DropFraction(i.dpFractionOx, i.dpFraction) * i.chamberPressure
  }

  /** Fuel pressure drop: the fuel (or default) fraction of Pc. */
  function FuelDrop(i: InjectorInputs): real
  {
    DropFraction(i.dpFractionFuel, i.dpFraction) * i.chamberPressure
  }

  /** The conditions under which the source computes a design without a
      Python error (division by zero, square root of a negative). */
  predicate Designable(i: InjectorInputs, sqrt: SqrtFn)
    requires IsSqrt(sqrt)
  {
    1.0 + i.mixtureRatio != 0.0
    && SideDesignable(OxidizerFlow(i.massFlow, i.mixtureRatio), i.cdOx, OxidizerDrop(i), i.rhoOxidizer,
                      i.choiceOx, sqrt)
    && SideDesignable(FuelFlow(i.massFlow, i.mixtureRatio), i.cdFuel, FuelDrop(i), i.rhoFuel,
                      i.choiceFuel, sqrt)
    && (InjectionPositive(i.rhoFuel, FuelDrop(i));
        InjectionVelocity(i.cdFuel, FuelDrop(i), i.rhoFuel, sqrt) > 0.0 ==> FuelFlow(i.massFlow, i.mixtureRatio) != 0.0)
  }

  /** Oxidizer/fuel momentum ratio, +inf when the fuel velocity is not
      positive. */
  function MomentumRatio(mdotOx: real, vOx: real, mdotFuel: real, vFuel: real): (r: Extended)
    requires vFuel > 0.0 ==> mdotFuel != 0.0
    ensures vFuel > 0.0 <==> r.Finite?
    ensures r.Finite? ==> r.value * (mdotFuel * vFuel) == mdotOx * vOx
  {
    if vFuel > 0.0 then
      NonzeroProduct(mdotFuel, vFuel);
      Finite(mdotOx * vOx / (mdotFuel * vFuel))
    else PosInf
  }

  /** The operating point: the split conserves the total and holds the
      mixture ratio; each side's fraction is its override or the default;
      each drop is its fraction of Pc and each manifold sits that drop above
      Pc. */
  function InjectorOperatingPoint(i: InjectorInputs): (p: OperatingPoint)
    requires 1.0 + i.mixtureRatio != 0.0
    ensures p.massFlowOxidizer + p.massFlowFuel == i.massFlow
    ensures p.massFlowOxidizer == i.mixtureRatio * p.massFlowFuel
    ensures i.dpFractionOx.Some? ==> p.dpFractionOx == i.dpFractionOx.value
    ensures i.dpFractionOx.None? ==> p.dpFractionOx == i.dpFraction
    ensures i.dpFractionFuel.Some? ==> p.dpFractionFuel == i.dpFractionFuel.value
    ensures i.dpFractionFuel.None? ==> p.dpFractionFuel == i.dpFraction
    ensures p.dpOxidizer == p.dpFractionOx * i.chamberPressure
    ensures p.dpFuel == p.dpFractionFuel * i.chamberPressure
    ensures p.manifoldPressureOx == i.chamberPressure + p.dpOxidizer
    ensures p.manifoldPressureFuel == i.chamberPressure + p.dpFuel
  {
    FlowSplit(i.massFlow, i.mixtureRatio);
    OperatingPoint(OxidizerFlow(i.massFlow, i.mixtureRatio), FuelFlow(i.massFlow, i.mixtureRatio),
                   OxidizerDrop(i), FuelDrop(i),
                   DropFraction(i.dpFractionOx, i.dpFraction), DropFraction(i.dpFractionFuel, i.dpFraction),
                   i.chamberPressure + OxidizerDrop(i), i.chamberPressure + FuelDrop(i))
  }

  /** `design_injector`: the operating point, both sides' layouts and the
      momentum ratio. */
  function DesignInjector(i: InjectorInputs, sqrt: SqrtFn): (d: InjectorDesign)
    requires IsSqrt(sqrt) && Designable(i, sqrt)
    ensures d.point == InjectorOperatingPoint(i)
    ensures d.mixtureRatio == i.mixtureRatio && d.chamberPressure == i.chamberPressure
    ensures (d.elementsOx, d.elementOx)
            == DesignSide(OxidizerFlow(i.massFlow, i.mixtureRatio), i.cdOx, OxidizerDrop(i), i.rhoOxidizer,
                          i.choiceOx, sqrt)
    ensures (d.elementsFuel, d.elementFuel)
            == DesignSide(FuelFlow(i.massFlow, i.mixtureRatio), i.cdFuel, FuelDrop(i), i.rhoFuel,
                          i.choiceFuel, sqrt)
    ensures d.elementFuel.velocity > 0.0 ==> d.point.massFlowFuel != 0.0
    ensures d.momentumRatio == MomentumRatio(d.point.massFlowOxidizer, d.elementOx.velocity,
                                             d.point.massFlowFuel, d.elementFuel.velocity)
  {
    var p := InjectorOperatingPoint(i);
    var ox := DesignSide(p.massFlowOxidizer, i.cdOx, p.dpOxidizer, i.rhoOxidizer, i.choiceOx, sqrt);
    var fuel := DesignSide(p.massFlowFuel, i.cdFuel, p.dpFuel, i.rhoFuel, i.choiceFuel, sqrt);
    InjectorDesign(p, i.mixtureRatio, i.chamberPressure, ox.0, ox.1, fuel.0, fuel.1,
                   MomentumRatio(p.massFlowOxidizer, ox.1.velocity, p.massFlowFuel, fuel.1.velocity))
  }

  /** A larger default drop fraction raises the oxidizer manifold pressure
      when Pc > 0 and no override is given. */
  lemma ManifoldRisesWithFraction(i: InjectorInputs, f1: real, f2: real)
    requires 1.0 + i.mixtureRatio != 0.0 && i.chamberPressure > 0.0 && f1 < f2 && i.dpFractionOx.None?
    ensures InjectorOperatingPoint(i.(dpFraction := f1)).manifoldPressureOx
            < InjectorOperatingPoint(i.(dpFraction := f2)).manifoldPressureOx
  {
    MulPosStrictMono(f1, f2, i.chamberPressure);
  }

  /** Pressure-drop stability margin dp / Pc. */
  function StabilityMargin(dp: real, chamberPressure: real): (m: real)
    requires chamberPressure != 0.0
    ensures m * chamberPressure == dp
  {
    dp / chamberPressure
  }

  /** The chugging assessment record. */
  datatype ChuggingCheck = ChuggingCheck(dpFraction: real, minMargin: real, stable: bool, margin: real)

  /** Stable exactly when the drop fraction reaches the minimum; the margin
      is the excess over it. */
  function CheckChuggingStability(dpFraction: real, minMargin: real): (c: ChuggingCheck)
    ensures c.dpFraction == dpFraction && c.minMargin == minMargin
    ensures c.margin + minMargin == dpFraction
    ensures c.stable <==> c.margin >= 0.0
  {
    ChuggingCheck(dpFraction, minMargin, dpFraction >= minMargin, dpFraction - minMargin)
  }

  /** For Pc > 0, the design is stable exactly when dp >= min_margin . Pc. */
  lemma StableIffDropLargeEnough(dp: real, chamberPressure: real, minMargin: real)
    requires chamberPressure > 0.0
    ensures CheckChuggingStability(StabilityMargin(dp, chamberPressure), minMargin).stable
            <==> dp >= minMargin * chamberPressure
  {
    var m := StabilityMargin(dp, chamberPressure);
    if m >= minMargin {
      MulNonnegMono(minMargin, m, chamberPressure);
    } else {
      MulPosStrictMono(m, minMargin, chamberPressure);
    }
  }

  /** The stability test cases: 4 bar on 20 bar is 0.2; 0.20 is stable and
      0.10 is not against 0.15. */
  lemma StabilityCases()
    ensures StabilityMargin(400000.0, 2000000.0) == 0.2
    ensures CheckChuggingStability(0.2, 0.15).stable
    ensures !CheckChuggingStability(0.1, 0.15).stable
  {
  }
}
