/** Turbine component: an ideal-gas expansion through a pressure ratio with
    an isentropic efficiency (resa_pro/cycle/components/turbine.py). */
module TurbineModel {
  import opened Common
  import opened FluidStates
  import opened RealArith

  datatype TurbineResult = TurbineResult(
    inlet: FluidState,
    outlet: FluidState,
    pressureRatio: real,
    shaftPower: real,
    efficiency: real)

  /** The pressure ratio p_in / p_out, or 1 when no positive outlet pressure
      is given. */
  function PressureRatio(inletPressure: real, outletPressure: real): (pr: real)
    ensures outletPressure > 0.0 ==> pr * outletPressure == inletPressure
    ensures outletPressure <= 0.0 ==> pr == 1.0
    ensures pr == 0.0 <==> outletPressure > 0.0 && inletPressure == 0.0
  {
    if outletPressure > 0.0 then inletPressure / outletPressure else 1.0
  }

  /** The isentropic temperature ratio (1/PR)^((gamma-1)/gamma). */
  function IsentropicFactor(pr: real, gamma: real, pow: PowFn): real
    requires pr != 0.0 && gamma != 0.0
  {
    pow(1.0 / pr, (gamma - 1.0) / gamma)
  }

  /** The ideal (isentropic) outlet temperature T_in * factor. */
  function IdealOutletTemperature(inlet: FluidState, outletPressure: real, gamma: real, pow: PowFn): real
    requires outletPressure > 0.0 ==> inlet.pressure != 0.0
    requires gamma != 0.0
  {
    inlet.temperature * IsentropicFactor(PressureRatio(inlet.pressure, outletPressure), gamma, pow)
  }

  /** t - e * (t - u) lies between u and t for 0 <= e <= 1. */
  lemma BetweenEnds(t: real, u: real, e: real)
    ensures 0.0 <= e <= 1.0 ==> Min(t, u) <= t - e * (t - u) <= Max(t, u)
  {
    if 0.0 <= e <= 1.0 {
      if u <= t {
        var w := t - u;
        MulNonnegMono(0.0, e, w);
        MulNonnegMono(e, 1.0, w);
        assert 0.0 <= e * w <= w;
      } else {
        var w := u - t;
        MulNonnegMono(0.0, e, w);
        MulNonnegMono(e, 1.0, w);
        assert 0.0 <= e * w <= w;
        assert e * (t - u) == -(e * w);
      }
    }
  }

  /** The actual outlet temperature: the temperature falls a fraction
      `efficiency` of the way from T_in to the ideal one, so for an
      efficiency in [0, 1] it lies between the two. */
  function ActualOutletTemperature(tIn: real, tIdeal: real, efficiency: real): (t: real)
    ensures tIn - t == efficiency * (tIn - tIdeal)
    ensures 0.0 <= efficiency <= 1.0 ==> Min(tIn, tIdeal) <= t <= Max(tIn, tIdeal)
  {
    BetweenEnds(tIn, tIdeal, efficiency);
    tIn - efficiency * (tIn - tIdeal)
  }

  /** Outlet density from the ideal-gas law when the inlet pressure and the
      outlet temperature are positive, otherwise the inlet density. */
  function ExpandedDensity(rhoIn: real, pIn: real, pOut: real, tIn: real, tOut: real): (rho: real)
    ensures pIn > 0.0 && tOut > 0.0 ==> rho * pIn * tOut == rhoIn * pOut * tIn
    ensures !(pIn > 0.0 && tOut > 0.0) ==> rho == rhoIn
  {
    if pIn > 0.0 && tOut > 0.0 then
      var rho := rhoIn * (pOut / pIn) * (tIn / tOut);
      assert rho * pIn == rhoIn * pOut * (tIn / tOut);
      rho
    else rhoIn
  }

  /** The turbine model: outlet at the requested pressure with the inlet's
      mass flow, the work extracted is cp times the temperature fall and
      leaves the fluid's enthalpy; entropy is not carried over. */
  function TurbineSolve(inlet: FluidState, outletPressure: real, gamma: real, cp: real,
                        efficiency: real, pow: PowFn): (r: TurbineResult)
    requires outletPressure > 0.0 ==> inlet.pressure != 0.0
    requires gamma != 0.0
    ensures r.inlet == inlet && r.efficiency == efficiency
    ensures r.pressureRatio == PressureRatio(inlet.pressure, outletPressure)
    ensures r.outlet.pressure == outletPressure && r.outlet.massFlow == inlet.massFlow
    ensures r.outlet.fluidName == inlet.fluidName
    ensures r.outlet.entropy == 0.0 && r.outlet.quality == -1.0
    ensures r.outlet.temperature
            == ActualOutletTemperature(inlet.temperature, IdealOutletTemperature(inlet, outletPressure, gamma, pow), efficiency)
    ensures r.shaftPower == (inlet.enthalpy - r.outlet.enthalpy) * inlet.massFlow
    ensures inlet.enthalpy - r.outlet.enthalpy == cp * (inlet.temperature - r.outlet.temperature)
    ensures r.outlet.density
            == ExpandedDensity(inlet.density, inlet.pressure, outletPressure, inlet.temperature, r.outlet.temperature)
  {
    var pr := PressureRatio(inlet.pressure, outletPressure);
    var tOut := ActualOutletTemperature(inlet.temperature, IdealOutletTemperature(inlet, outletPressure, gamma, pow), efficiency);
    var w := cp * (inlet.temperature - tOut);
    var rhoOut := ExpandedDensity(inlet.density, inlet.pressure, outletPressure, inlet.temperature, tOut);
    var outlet := State(outletPressure, tOut, inlet.massFlow, rhoOut,
                        inlet.enthalpy - w, 0.0, inlet.fluidName);
    TurbineResult(inlet, outlet, pr, w * inlet.massFlow, efficiency)
  }

  /** A turbine object: a name, a fixed efficiency and its latest result. */
  class Turbine {
    const name: string
    const efficiency: real
    var result: Option<TurbineResult>

    constructor (name: string, efficiency: real)
      ensures this.name == name && this.efficiency == efficiency
      ensures result == None && Power() == 0.0
    {
      this.name := name;
      this.efficiency := efficiency;
      result := None;
    }

    /** Runs the turbine model on `inlet` and records the result; the power
        it reports is the negated shaft power (produced power is negative). */
    method Compute(inlet: FluidState, outletPressure: real, gamma: real, cp: real, pow: PowFn)
      returns (outlet: FluidState)
      requires outletPressure > 0.0 ==> inlet.pressure != 0.0
      requires gamma != 0.0
      modifies this
      ensures result == Some(TurbineSolve(inlet, outletPressure, gamma, cp, efficiency, pow))
      ensures outlet == result.value.outlet
      ensures Power() == -TurbineSolve(inlet, outletPressure, gamma, cp, efficiency, pow).shaftPower
    {
      var r := TurbineSolve(inlet, outletPressure, gamma, cp, efficiency, pow);
      result := Some(r);
      outlet := r.outlet;
    }

    /** Net power [W]: positive consumed, so a producing turbine is negative. */
    function Power(): (p: real)
      reads this
      ensures result.None? ==> p == 0.0
      ensures result.Some? ==> p == -result.value.shaftPower
      ensures result.Some? && result.value.shaftPower >= 0.0 ==> p <= 0.0
    {
      if result.Some? then -result.value.shaftPower else 0.0
    }

    /** The base summary, plus pressure ratio, efficiency and shaft power in
        kW once a result exists. */
    function Summary(): (d: Summary)
      reads this
      ensures result.None? ==> d.Keys == {"name", "type", "power_W"}
      ensures result.Some? ==>
                d.Keys == {"name", "type", "power_W", "pressure_ratio", "efficiency", "shaft_power_kW"}
      ensures d["name"] == Text(name) && d["type"] == Text("turbine") && d["power_W"] == Num(Power())
      ensures result.Some? ==> d["pressure_ratio"] == Num(result.value.pressureRatio)
      ensures result.Some? ==> d["efficiency"] == Num(result.value.efficiency)
      ensures result.Some? ==> d["shaft_power_kW"].Num?
                               && d["shaft_power_kW"].num * 1000.0 == -d["power_W"].num
    {
      var d := BaseSummary(name, "turbine", Power());
      if result.Some? then
        d["pressure_ratio" := Num(result.value.pressureRatio)]
         ["efficiency" := Num(result.value.efficiency)]
         ["shaft_power_kW" := Num(result.value.shaftPower / 1000.0)]
      else d
    }
  }

  /** Shaft power cp * efficiency * (temperature drop) * mass flow. */
  function ShaftWork(cp: real, efficiency: real, drop: real, massFlow: real): real
  {
    cp * (efficiency * drop) * massFlow
  }

  /** Specific work cp * (T_in - T_out) equals cp * efficiency * (T_in - T_ideal). */
  lemma WorkFromIdealDrop(inlet: FluidState, outletPressure: real, gamma: real, cp: real,
                          efficiency: real, pow: PowFn)
    requires outletPressure > 0.0 ==> inlet.pressure != 0.0
    requires gamma != 0.0
    ensures var r := TurbineSolve(inlet, outletPressure, gamma, cp, efficiency, pow);
            r.shaftPower
            == ShaftWork(cp, efficiency, inlet.temperature - IdealOutletTemperature(inlet, outletPressure, gamma, pow),
                         inlet.massFlow)
  {
  }

  /** Whenever the isentropic temperature is below the inlet temperature and
      efficiency, cp and mass flow are positive, work is extracted: the shaft
      power is positive, so the reported power is negative. */
  lemma TurbineProducesPower(inlet: FluidState, outletPressure: real, gamma: real, cp: real,
                             efficiency: real, pow: PowFn)
    requires outletPressure > 0.0 ==> inlet.pressure != 0.0
    requires gamma != 0.0
    requires IdealOutletTemperature(inlet, outletPressure, gamma, pow) < inlet.temperature
    requires efficiency > 0.0 && cp > 0.0 && inlet.massFlow > 0.0
    ensures TurbineSolve(inlet, outletPressure, gamma, cp, efficiency, pow).shaftPower > 0.0
  {
    var drop := inlet.temperature - IdealOutletTemperature(inlet, outletPressure, gamma, pow);
    WorkFromIdealDrop(inlet, outletPressure, gamma, cp, efficiency, pow);
    WorkPositive(drop, efficiency, cp, inlet.massFlow,
                 TurbineSolve(inlet, outletPressure, gamma, cp, efficiency, pow).shaftPower);
  }

  /** The work cp * e * d * m is positive when every factor is. */
  lemma WorkPositive(d: real, e: real, cp: real, m: real, s: real)
    requires d > 0.0 && e > 0.0 && cp > 0.0 && m > 0.0
    requires s == ShaftWork(cp, e, d, m)
    ensures s > 0.0
  {
    PosMulPos(e, d);
    PosMulPos(cp, e * d);
    PosMulPos(cp * (e * d), m);
  }

  /** A more efficient turbine extracts strictly more power from the same
      expansion. */
  lemma PowerIncreasesWithEfficiency(inlet: FluidState, outletPressure: real, gamma: real, cp: real,
                                     e1: real, e2: real, pow: PowFn)
    requires outletPressure > 0.0 ==> inlet.pressure != 0.0
    requires gamma != 0.0
    requires IdealOutletTemperature(inlet, outletPressure, gamma, pow) < inlet.temperature
    requires cp > 0.0 && inlet.massFlow > 0.0 && e1 < e2
    ensures TurbineSolve(inlet, outletPressure, gamma, cp, e1, pow).shaftPower
            < TurbineSolve(inlet, outletPressure, gamma, cp, e2, pow).shaftPower
  {
    var drop := inlet.temperature - IdealOutletTemperature(inlet, outletPressure, gamma, pow);
    WorkFromIdealDrop(inlet, outletPressure, gamma, cp, e1, pow);
    WorkFromIdealDrop(inlet, outletPressure, gamma, cp, e2, pow);
    WorkEfficiencyMono(drop, e1, e2, cp, inlet.massFlow,
                       TurbineSolve(inlet, outletPressure, gamma, cp, e1, pow).shaftPower,
                       TurbineSolve(inlet, outletPressure, gamma, cp, e2, pow).shaftPower);
  }

  /** The work cp * e * d * m grows with e when d, cp and m are positive. */
  lemma WorkEfficiencyMono(d: real, e1: real, e2: real, cp: real, m: real, s1: real, s2: real)
    requires d > 0.0 && e1 < e2 && cp > 0.0 && m > 0.0
    requires s1 == ShaftWork(cp, e1, d, m) && s2 == ShaftWork(cp, e2, d, m)
    ensures s1 < s2
  {
    MulPosStrictMono(e1, e2, d);
    MulPosStrictMono(e1 * d, e2 * d, cp);
    assert cp * (e1 * d) < cp * (e2 * d);
    MulPosStrictMono(cp * (e1 * d), cp * (e2 * d), m);
  }

  /** With the same inlet, efficiency, cp and mass flow, an expansion whose
      isentropic factor is smaller yields strictly more power. */
  lemma PowerIncreasesAsFactorDecreases(inlet: FluidState, outletPressure: real, gamma: real, cp: real,
                                        efficiency: real, pow1: PowFn, pow2: PowFn)
    requires outletPressure > 0.0 ==> inlet.pressure != 0.0
    requires gamma != 0.0
    requires inlet.temperature > 0.0 && efficiency > 0.0 && cp > 0.0 && inlet.massFlow > 0.0
    requires IsentropicFactor(PressureRatio(inlet.pressure, outletPressure), gamma, pow2)
             < IsentropicFactor(PressureRatio(inlet.pressure, outletPressure), gamma, pow1)
    ensures TurbineSolve(inlet, outletPressure, gamma, cp, efficiency, pow1).shaftPower
            < TurbineSolve(inlet, outletPressure, gamma, cp, efficiency, pow2).shaftPower
  {
    var i1 := IdealOutletTemperature(inlet, outletPressure, gamma, pow1);
    var i2 := IdealOutletTemperature(inlet, outletPressure, gamma, pow2);
    IdealTemperatureMono(inlet, outletPressure, gamma, pow1, pow2);
    WorkFromIdealDrop(inlet, outletPressure, gamma, cp, efficiency, pow1);
    WorkFromIdealDrop(inlet, outletPressure, gamma, cp, efficiency, pow2);
    WorkMono(inlet.temperature, i1, i2, efficiency, cp, inlet.massFlow,
             TurbineSolve(inlet, outletPressure, gamma, cp, efficiency, pow1).shaftPower,
             TurbineSolve(inlet, outletPressure, gamma, cp, efficiency, pow2).shaftPower);
  }

  /** A smaller isentropic factor gives a lower ideal outlet temperature. */
  lemma IdealTemperatureMono(inlet: FluidState, outletPressure: real, gamma: real, pow1: PowFn, pow2: PowFn)
    requires outletPressure > 0.0 ==> inlet.pressure != 0.0
    requires gamma != 0.0 && inlet.temperature > 0.0
    requires IsentropicFactor(PressureRatio(inlet.pressure, outletPressure), gamma, pow2)
             < IsentropicFactor(PressureRatio(inlet.pressure, outletPressure), gamma, pow1)
    ensures IdealOutletTemperature(inlet, outletPressure, gamma, pow2)
            < IdealOutletTemperature(inlet, outletPressure, gamma, pow1)
  {
    var pr := PressureRatio(inlet.pressure, outletPressure);
    MulPosStrictMono(IsentropicFactor(pr, gamma, pow2), IsentropicFactor(pr, gamma, pow1), inlet.temperature);
  }

  /** The work cp * e * (T - T_ideal) * m grows as the ideal temperature falls. */
  lemma WorkMono(t: real, i1: real, i2: real, e: real, cp: real, m: real, s1: real, s2: real)
    requires i2 < i1 && e > 0.0 && cp > 0.0 && m > 0.0
    requires s1 == ShaftWork(cp, e, t - i1, m) && s2 == ShaftWork(cp, e, t - i2, m)
    ensures s1 < s2
  {
    MulPosStrictMono(t - i1, t - i2, e);
    assert e * (t - i1) < e * (t - i2);
    MulPosStrictMono(e * (t - i1), e * (t - i2), cp);
    assert cp * (e * (t - i1)) < cp * (e * (t - i2));
    MulPosStrictMono(cp * (e * (t - i1)), cp * (e * (t - i2)), m);
  }

  /** When the gas cools on expansion (0 < T_out < T_in), the ideal-gas
      outlet density exceeds the estimate that scales the inlet density by
      the pressure ratio alone. */
  lemma DensityAboveIsothermalEstimate(rhoIn: real, pIn: real, pOut: real, tIn: real, tOut: real)
    requires pIn > 0.0 && pOut > 0.0 && rhoIn > 0.0
    requires 0.0 < tOut < tIn
    ensures ExpandedDensity(rhoIn, pIn, pOut, tIn, tOut) > rhoIn * (pOut / pIn)
  {
    var base := rhoIn * (pOut / pIn);
    PosDivPos(pOut, pIn);
    PosMulPos(rhoIn, pOut / pIn);
    DivByLargerStrict(tIn, tOut, tIn);
    assert tIn / tOut > 1.0;
    MulPosStrictMono(1.0, tIn / tOut, base);
    assert ExpandedDensity(rhoIn, pIn, pOut, tIn, tOut) == base * (tIn / tOut);
  }

  /** A turbine with no pressure drop (outlet pressure equal to a positive
      inlet pressure) whose power law maps 1 to 1 extracts nothing: the
      temperature is unchanged and the shaft power is zero. */
  lemma NoExpansionNoWork(inlet: FluidState, gamma: real, cp: real, efficiency: real, pow: PowFn)
    requires inlet.pressure > 0.0 && gamma != 0.0
    requires pow(1.0, (gamma - 1.0) / gamma) == 1.0
    ensures TurbineSolve(inlet, inlet.pressure, gamma, cp, efficiency, pow).outlet.temperature == inlet.temperature
    ensures TurbineSolve(inlet, inlet.pressure, gamma, cp, efficiency, pow).shaftPower == 0.0
  {
    assert PressureRatio(inlet.pressure, inlet.pressure) == 1.0;
    assert IdealOutletTemperature(inlet, inlet.pressure, gamma, pow) == inlet.temperature;
  }
}
