/** Pump component: an incompressible pressure rise with an isentropic
    efficiency (resa_pro/cycle/components/pump.py). */
module PumpModel {
  import opened Common
  import opened FluidStates
  import opened RealArith

  datatype PumpResult = PumpResult(
    inlet: FluidState,
    outlet: FluidState,
    pressureRise: real,
    shaftPower: real,
    efficiency: real,
    specificSpeed: real)

  /** The density the pump works with: the inlet's, or 1000 kg/m^3 when the
      inlet carries none. */
  function PumpDensity(inlet: FluidState): (rho: real)
    ensures rho > 0.0
    ensures inlet.density > 0.0 ==> rho == inlet.density
  {
    if inlet.density > 0.0 then inlet.density else 1000.0
  }

  /** Actual work per unit mass; a non-positive efficiency is ignored. */
  function ActualWork(dp: real, rho: real, efficiency: real): (w: real)
    requires rho > 0.0
    ensures efficiency > 0.0 ==> w * rho * efficiency == dp
    ensures efficiency <= 0.0 ==> w * rho == dp
  {
    var wIdeal := dp / rho;
    if efficiency > 0.0 then wIdeal / efficiency else wIdeal
  }

  /** The specific heat used for the temperature rise: the given one, else a
      liquid-like or gas-like estimate chosen by density. */
  function PumpCp(cp: real, rho: real): (c: real)
    ensures c > 0.0
    ensures cp > 0.0 ==> c == cp
    ensures cp <= 0.0 ==> (c == 2000.0 <==> rho > 500.0)
  {
    if cp > 0.0 then cp else if rho > 500.0 then 2000.0 else 1000.0
  }

  /** The pump model: outlet at the requested pressure, same mass flow and
      entropy, enthalpy raised by the actual work, temperature raised by the
      work over the specific heat. */
  function PumpSolve(inlet: FluidState, outletPressure: real, cp: real, efficiency: real): (r: PumpResult)
    ensures r.inlet == inlet && r.efficiency == efficiency
    ensures r.pressureRise == outletPressure - inlet.pressure
    ensures r.outlet.pressure == outletPressure
    ensures r.outlet.massFlow == inlet.massFlow
    ensures r.outlet.entropy == inlet.entropy && r.outlet.fluidName == inlet.fluidName
    ensures r.outlet.quality == -1.0 && r.outlet.density == PumpDensity(inlet)
    ensures efficiency > 0.0 ==>
              (r.outlet.enthalpy - inlet.enthalpy) * r.outlet.density * efficiency == r.pressureRise
    ensures efficiency <= 0.0 ==> (r.outlet.enthalpy - inlet.enthalpy) * r.outlet.density == r.pressureRise
    ensures r.shaftPower == (r.outlet.enthalpy - inlet.enthalpy) * inlet.massFlow
    ensures efficiency > 0.0 ==>
              r.shaftPower * r.outlet.density * efficiency == r.pressureRise * inlet.massFlow
    ensures efficiency <= 0.0 ==>
              r.shaftPower * r.outlet.density == r.pressureRise * inlet.massFlow
    ensures (r.outlet.temperature - inlet.temperature) * PumpCp(cp, r.outlet.density)
            == r.outlet.enthalpy - inlet.enthalpy
  {
    var dp := outletPressure - inlet.pressure;
    var rho := PumpDensity(inlet);
    var mdot := inlet.massFlow;
    var w := ActualWork(dp, rho, efficiency);
    var dT := w / PumpCp(cp, rho);
    var outlet := State(outletPressure, inlet.temperature + dT, mdot, rho,
                        inlet.enthalpy + w, inlet.entropy, inlet.fluidName);
    PumpResult(inlet, outlet, dp, w * mdot, efficiency, 0.0)
  }

  /** A pump object: a name, a fixed efficiency and the result of its most
      recent computation. */
  class Pump {
    const name: string
    const efficiency: real
    var result: Option<PumpResult>

    constructor (name: string, efficiency: real)
      ensures this.name == name && this.efficiency == efficiency
      ensures result == None && Power() == 0.0
    {
      this.name := name;
      this.efficiency := efficiency;
      result := None;
    }

    /** Runs the pump model on `inlet` and records the result. */
    method Compute(inlet: FluidState, outletPressure: real, cp: real) returns (outlet: FluidState)
      modifies this
      ensures result == Some(PumpSolve(inlet, outletPressure, cp, efficiency))
      ensures outlet == result.value.outlet
      ensures Power() == PumpSolve(inlet, outletPressure, cp, efficiency).shaftPower
    {
      var r := PumpSolve(inlet, outletPressure, cp, efficiency);
      result := Some(r);
      outlet := r.outlet;
    }

    /** Shaft power consumed [W]; zero before the first computation. */
    function Power(): (p: real)
      reads this
      ensures result.None? ==> p == 0.0
      ensures result.Some? ==> p == result.value.shaftPower
    {
      if result.Some? then result.value.shaftPower else 0.0
    }

    /** The base summary, plus the pressure rise in bar and the efficiency
        once a result exists. */
    function Summary(): (d: Summary)
      reads this
      ensures result.None? ==> d.Keys == {"name", "type", "power_W"}
      ensures result.Some? ==> d.Keys == {"name", "type", "power_W", "pressure_rise_bar", "efficiency"}
      ensures d["name"] == Text(name) && d["type"] == Text("pump") && d["power_W"] == Num(Power())
      ensures result.Some? ==> d["pressure_rise_bar"].Num?
                               && d["pressure_rise_bar"].num * 100000.0 == result.value.pressureRise
      ensures result.Some? ==> d["efficiency"] == Num(result.value.efficiency)
    {
      var d := BaseSummary(name, "pump", Power());
      if result.Some? then
        d["pressure_rise_bar" := Num(result.value.pressureRise / 100000.0)]
         ["efficiency" := Num(result.value.efficiency)]
      else d
    }
  }

  /** Shaft power grows strictly with the requested outlet pressure when the
      mass flow and the efficiency are positive. */
  lemma PowerIncreasesWithOutletPressure(inlet: FluidState, p1: real, p2: real, cp: real, efficiency: real)
    requires inlet.massFlow > 0.0 && efficiency > 0.0 && p1 < p2
    ensures PumpSolve(inlet, p1, cp, efficiency).shaftPower < PumpSolve(inlet, p2, cp, efficiency).shaftPower
  {
    PowerOrder(PumpSolve(inlet, p1, cp, efficiency).shaftPower, PumpSolve(inlet, p2, cp, efficiency).shaftPower,
               PumpSolve(inlet, p1, cp, efficiency).outlet.density, PumpSolve(inlet, p2, cp, efficiency).outlet.density,
               efficiency, p1 - inlet.pressure, p2 - inlet.pressure, inlet.massFlow);
  }

  /** Powers s with s * rho * e == dp * m are ordered like the rises dp. */
  lemma PowerOrder(s1: real, s2: real, rho1: real, rho2: real, e: real, d1: real, d2: real, m: real)
    requires rho1 == rho2 && rho1 > 0.0 && e > 0.0 && m > 0.0 && d1 < d2
    requires s1 * rho1 * e == d1 * m && s2 * rho2 * e == d2 * m
    ensures s1 < s2
  {
    MulPosStrictMono(d1, d2, m);
    if s2 <= s1 {
      MulNonnegMono(s2, s1, rho1);
      MulNonnegMono(s2 * rho1, s1 * rho1, e);
      assert false;
    }
  }

  /** For a positive pressure rise and mass flow, a better pump needs strictly
      less shaft power. */
  lemma PowerDecreasesWithEfficiency(inlet: FluidState, outletPressure: real, cp: real, e1: real, e2: real)
    requires inlet.massFlow > 0.0 && outletPressure > inlet.pressure && 0.0 < e1 < e2
    ensures PumpSolve(inlet, outletPressure, cp, e2).shaftPower < PumpSolve(inlet, outletPressure, cp, e1).shaftPower
  {
    PosMulPos(outletPressure - inlet.pressure, inlet.massFlow);
    EfficiencyOrder(PumpSolve(inlet, outletPressure, cp, e1).shaftPower,
                    PumpSolve(inlet, outletPressure, cp, e2).shaftPower,
                    PumpSolve(inlet, outletPressure, cp, e1).outlet.density,
                    PumpSolve(inlet, outletPressure, cp, e2).outlet.density,
                    e1, e2, (outletPressure - inlet.pressure) * inlet.massFlow);
  }

  /** Powers s with s * rho * e == k > 0 fall as the efficiency e rises. */
  lemma EfficiencyOrder(s1: real, s2: real, rho1: real, rho2: real, e1: real, e2: real, k: real)
    requires rho1 == rho2 && rho1 > 0.0 && 0.0 < e1 < e2 && k > 0.0
    requires s1 * rho1 * e1 == k && s2 * rho2 * e2 == k
    ensures s2 < s1
  {
    assert s1 * rho1 > 0.0 by {
      if s1 * rho1 <= 0.0 {
        MulNonnegMono(s1 * rho1, 0.0, e1);
        assert false;
      }
    }
    MulPosStrictMono(e1, e2, s1 * rho1);
    if s1 <= s2 {
      MulNonnegMono(s1, s2, rho1);
      MulNonnegMono(s1 * rho1, s2 * rho1, e2);
      assert false;
    }
  }

  /** Pumping heats the fluid and raises its enthalpy whenever the pressure
      rises, and a fluid with a larger specific heat heats up less. */
  lemma PumpHeatsFluid(inlet: FluidState, outletPressure: real, cp1: real, cp2: real, efficiency: real)
    requires outletPressure > inlet.pressure && 0.0 < cp1 <= cp2
    ensures PumpSolve(inlet, outletPressure, cp1, efficiency).outlet.enthalpy > inlet.enthalpy
    ensures PumpSolve(inlet, outletPressure, cp2, efficiency).outlet.temperature > inlet.temperature
    ensures PumpSolve(inlet, outletPressure, cp2, efficiency).outlet.temperature
            <= PumpSolve(inlet, outletPressure, cp1, efficiency).outlet.temperature
  {
    var rho := PumpDensity(inlet);
    var w := ActualWork(outletPressure - inlet.pressure, rho, efficiency);
    PosDivPos(outletPressure - inlet.pressure, rho);
    if efficiency > 0.0 {
      PosDivPos((outletPressure - inlet.pressure) / rho, efficiency);
    }
    assert w > 0.0;
    PosDivPos(w, cp2);
    DivByLargerMono(w, cp1, cp2);
  }

  /** A pump that is asked for no pressure rise leaves the fluid's pressure,
      enthalpy and temperature alone and draws no power. */
  lemma NoRiseNoWork(inlet: FluidState, cp: real, efficiency: real)
    ensures PumpSolve(inlet, inlet.pressure, cp, efficiency).shaftPower == 0.0
    ensures PumpSolve(inlet, inlet.pressure, cp, efficiency).outlet.enthalpy == inlet.enthalpy
    ensures PumpSolve(inlet, inlet.pressure, cp, efficiency).outlet.temperature == inlet.temperature
  {
  }

  /** A worked case: 0.5 kg/s of a liquid of density 789 kg/m^3 pumped from
      5 to 30 bar at 65 % efficiency takes (25e5 / 789) / 0.65 * 0.5 W, a
      positive power. */
  lemma WorkedPumpCase(cp: real)
    ensures PumpSolve(State(5.0e5, 300.0, 0.5, 789.0, 0.0, 0.0, "ethanol"), 30.0e5, cp, 0.65).shaftPower
            == (25.0e5 / 789.0) / 0.65 * 0.5
    ensures PumpSolve(State(5.0e5, 300.0, 0.5, 789.0, 0.0, 0.0, "ethanol"), 30.0e5, cp, 0.65).shaftPower > 0.0
  {
  }
}
