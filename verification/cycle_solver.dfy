/** The engine-cycle solver (resa_pro/cycle/solver.py): the flow split,
    the pressure-fed, gas-generator and expander cycles over the pump,
    turbine, valve and heat-exchanger objects, and the dispatch on the
    cycle type.

    The two scipy `brentq` searches are not modelled as iterations. Each
    search is given its bracket, the model evaluates the residual at both
    ends on the shared component objects, and when the signs agree (where
    `brentq` raises ValueError) it takes the source's fallback; otherwise
    the root is supplied as a position t in [0, 1] inside the bracket. */
module CycleSolver {
  import opened Common
  import opened RealArith
  import opened FluidStates
  import Thermo
  import Injector
  import opened PumpModel
  import opened TurbineModel
  import opened ValveModel
  import opened HeatExchangerModel

  /** The cycle architectures; `Unrecognised` stands for any value that is
      none of the three enum members. */
  datatype CycleType = PressureFed | GasGenerator | Expander | Unrecognised

  datatype CycleDefinition = CycleDefinition(
    cycleType: CycleType,
    chamberPressure: real,
    thrust: real,
    mixtureRatio: real,
    cStar: real,
    gamma: real,
    tc: real,
    oxDensity: real,
    fuelDensity: real,
    oxTankPressure: real,
    fuelTankPressure: real,
    oxPumpEfficiency: real,
    fuelPumpEfficiency: real,
    turbineEfficiency: real,
    turbineInletTemperature: real,
    turbinePressureRatio: real,
    ggFuelFraction: real,
    turbineGasGamma: real,
    turbineGasCp: real,
    oxFeedLineDp: real,
    fuelFeedLineDp: real,
    oxValveDp: real,
    fuelValveDp: real,
    injectorDpFraction: real,
    hxEffectiveness: real,
    hxDpHot: real,
    hxDpCold: real)

  /** The definition with every field at its default, for a cycle type. */
  function DefaultDefinition(cycleType: CycleType): (d: CycleDefinition)
    ensures d.cycleType == cycleType && d.chamberPressure == 2.0e6 && d.thrust == 2000.0
    ensures d.mixtureRatio == 4.0 && d.cStar == 1550.0 && d.injectorDpFraction == 0.15
    ensures d.oxFeedLineDp == 50000.0 && d.oxValveDp == 50000.0
    ensures d.fuelFeedLineDp == 50000.0 && d.fuelValveDp == 50000.0
  {
    CycleDefinition(cycleType, 2.0e6, 2000.0, 4.0, 1550.0, 1.21, 3100.0, 1220.0, 789.0, 25.0e5, 25.0e5,
                    0.65, 0.65, 0.60, 800.0, 10.0, 0.02, 1.3, 1500.0,
                    50000.0, 50000.0, 50000.0, 50000.0, 0.15, 0.80, 50000.0, 100000.0)
  }

  datatype CyclePerformance = CyclePerformance(
    cycleType: string,
    chamberPressure: real,
    thrust: real,
    totalMassFlow: real,
    mixtureRatio: real,
    ispDelivered: real,
    cStar: real,
    pumpPowerTotal: real,
    turbinePowerTotal: real,
    powerBalanceError: real,
    tankPressureOx: real,
    tankPressureFuel: real,
    componentSummaries: seq<Summary>)

  /** The transcendental and iterative inputs of a solve: the thrust
      coefficient at expansion ratio 10 and zero ambient pressure that the
      isentropic relations give, the fractional power, and the positions of
      the two `brentq` roots inside their brackets. */
  datatype Numerics = Numerics(cf: real, pow: PowFn, ggRoot: real, expanderRoot: real)

  /** Tank pressure of the pump-fed cycles, enough for pump suction [Pa]. */
  const PUMP_FED_TANK_PRESSURE: real := 3.0e5

  /** Back pressure of the gas-generator turbine exhaust [Pa]. */
  const GG_EXHAUST_PRESSURE: real := 1.0e5

  /** Lower end of the gas-generator flow bracket [kg/s]. */
  const GG_FLOW_LOW: real := 1.0e-4

  datatype MassFlows = MassFlows(total: real, ox: real, fuel: real)

  /** What every solver needs of the operating point before dividing by it. */
  predicate Sizable(d: CycleDefinition, cf: real)
  {
    cf != 0.0 && d.chamberPressure != 0.0 && d.cStar != 0.0 && 1.0 + d.mixtureRatio != 0.0
    && d.thrust != 0.0
  }

  /** `_compute_flow_rates`: the throat is sized for the thrust, its mass
      flow taken at Pc and c*, and split by the mixture ratio. The total is
      thrust / (CF c*), and a non-zero thrust leaves both shares non-zero. */
  function FlowRates(d: CycleDefinition, cf: real): (r: MassFlows)
    requires Sizable(d, cf)
    ensures r.total * (cf * d.cStar) == d.thrust
    ensures r.ox + r.fuel == r.total && r.ox == d.mixtureRatio * r.fuel
    ensures r.total != 0.0 && r.fuel != 0.0
  {
    Thermo.MassFlowForThrust(d.thrust, d.chamberPressure, cf, d.cStar);
    var at := Thermo.ThroatArea(d.thrust, d.chamberPressure, cf);
    var total := Thermo.MassFlowRate(d.chamberPressure, at, d.cStar);
    Injector.FlowSplit(total, d.mixtureRatio);
    MassFlows(total, Injector.OxidizerFlow(total, d.mixtureRatio), Injector.FuelFlow(total, d.mixtureRatio))
  }

  /** System specific impulse F / (mdot g0), the same in every cycle. */
  function DeliveredIsp(thrust: real, totalMassFlow: real): (isp: real)
    requires totalMassFlow != 0.0
    ensures isp * (totalMassFlow * G0) == thrust
  {
    thrust / (totalMassFlow * G0)
  }

  /** The injector pressure drop, a fraction of Pc. */
  function InjectorDp(d: CycleDefinition): real
  {
    d.injectorDpFraction * d.chamberPressure
  }

  // ---------------------------------------------------------------------
  // Pressure-fed cycle

  /** The tank pressure of a pressure-fed side: Pc, the injector drop, the
      feed-line drop and the valve drop. */
  function RequiredTankPressure(d: CycleDefinition, feedDp: real, valveDp: real): (p: real)
    ensures p - feedDp - valveDp == d.chamberPressure + InjectorDp(d)
  {
    d.chamberPressure + InjectorDp(d) + feedDp + valveDp
  }

  /** The state after a feed line modelled by its configured drop: only the
      pressure falls. */
  function FeedLineOutlet(s: FluidState, feedDp: real): (o: FluidState)
    requires s.quality == -1.0
    ensures o == s.(pressure := s.pressure - feedDp)
  {
    State(s.pressure - feedDp, s.temperature, s.massFlow, s.density, s.enthalpy, s.entropy, s.fluidName)
  }

  /** The summary entry of a feed line with a fixed drop. */
  function FeedLineSummary(name: string, dp: real): (m: Summary)
    ensures m.Keys == {"name", "type", "dp_bar"}
    ensures m["name"] == Text(name) && m["type"] == Text("pipe")
    ensures m["dp_bar"].Num? && m["dp_bar"].num * 1.0e5 == dp
  {
    map["name" := Text(name), "type" := Text("pipe"), "dp_bar" := Num(dp / 1.0e5)]
  }

  /** The tank state of the oxidizer side of a pressure-fed cycle. */
  function PressureFedOxTank(d: CycleDefinition, flows: MassFlows): FluidState
  {
    State(RequiredTankPressure(d, d.oxFeedLineDp, d.oxValveDp), 90.0, flows.ox, d.oxDensity, 0.0, 0.0, "oxidizer")
  }

  /** The tank state of the fuel side of a pressure-fed cycle. */
  function PressureFedFuelTank(d: CycleDefinition, flows: MassFlows): FluidState
  {
    State(RequiredTankPressure(d, d.fuelFeedLineDp, d.fuelValveDp), 293.0, flows.fuel, d.fuelDensity, 0.0, 0.0, "fuel")
  }

  /** The tank pressure is exactly what the path needs: after the feed line
      and the fixed-drop valve each side reaches the injector at Pc plus
      the injector drop. */
  lemma PressureFedReachesInjector(d: CycleDefinition, flows: MassFlows)
    ensures var ox := ValveSolve(FeedLineOutlet(PressureFedOxTank(d, flows), d.oxFeedLineDp), d.oxValveDp, None);
            ox.outlet.pressure == d.chamberPressure + InjectorDp(d)
            && ox.outlet.massFlow == flows.ox && ox.outlet.temperature == 90.0
    ensures var fuel := ValveSolve(FeedLineOutlet(PressureFedFuelTank(d, flows), d.fuelFeedLineDp), d.fuelValveDp, None);
            fuel.outlet.pressure == d.chamberPressure + InjectorDp(d)
            && fuel.outlet.massFlow == flows.fuel && fuel.outlet.temperature == 293.0
  {
    var oxTank := PressureFedOxTank(d, flows);
    var ox := ValveSolve(FeedLineOutlet(oxTank, d.oxFeedLineDp), d.oxValveDp, None);
    assert ox.outlet.pressure == oxTank.pressure - d.oxFeedLineDp - d.oxValveDp;
    var fuelTank := PressureFedFuelTank(d, flows);
    var fuel := ValveSolve(FeedLineOutlet(fuelTank, d.fuelFeedLineDp), d.fuelValveDp, None);
    assert fuel.outlet.pressure == fuelTank.pressure - d.fuelFeedLineDp - d.fuelValveDp;
  }

  /** A component summary carrying the given name. */
  predicate Named(m: Summary, name: string)
  {
    "name" in m && m["name"] == Text(name)
  }

  /** The summary of a fixed-drop valve after its computation. */
  predicate ValveSummaryFor(m: Summary, name: string, dp: real)
  {
    && Named(m, name)
    && m.Keys == {"name", "type", "power_W", "pressure_drop_bar"}
    && m["pressure_drop_bar"].Num? && m["pressure_drop_bar"].num * 100000.0 == dp
  }

  /** The fields every solver copies from the definition. */
  predicate CopiesOperatingPoint(perf: CyclePerformance, d: CycleDefinition)
  {
    perf.chamberPressure == d.chamberPressure && perf.thrust == d.thrust
    && perf.mixtureRatio == d.mixtureRatio && perf.cStar == d.cStar
  }

  /** `_solve_pressure_fed`: no turbomachinery, so pump power, turbine power
      and residual are zero; each tank supplies its whole loss budget; the
      feed lines and valves are traced in the summaries. */
  method SolvePressureFed(d: CycleDefinition, cf: real) returns (perf: CyclePerformance)
    requires Sizable(d, cf)
    ensures perf.cycleType == "pressure_fed" && CopiesOperatingPoint(perf, d)
    ensures perf.totalMassFlow == FlowRates(d, cf).total
    ensures perf.ispDelivered == DeliveredIsp(d.thrust, perf.totalMassFlow)
    ensures perf.pumpPowerTotal == 0.0 && perf.turbinePowerTotal == 0.0 && perf.powerBalanceError == 0.0
    ensures perf.tankPressureOx == RequiredTankPressure(d, d.oxFeedLineDp, d.oxValveDp)
    ensures perf.tankPressureFuel == RequiredTankPressure(d, d.fuelFeedLineDp, d.fuelValveDp)
    ensures |perf.componentSummaries| == 4
    ensures perf.componentSummaries[0] == FeedLineSummary("ox_feed_line", d.oxFeedLineDp)
    ensures perf.componentSummaries[2] == FeedLineSummary("fuel_feed_line", d.fuelFeedLineDp)
    ensures ValveSummaryFor(perf.componentSummaries[1], "ox_valve", d.oxValveDp)
    ensures ValveSummaryFor(perf.componentSummaries[3], "fuel_valve", d.fuelValveDp)
  {
    var flows := FlowRates(d, cf);
    var oxTank := PressureFedOxTank(d, flows);
    var oxAfterPipe := FeedLineOutlet(oxTank, d.oxFeedLineDp);
    var oxValve := new Valve("ox_valve", d.oxValveDp, None);
    var oxAfterValve := oxValve.Compute(oxAfterPipe);
    var oxValveSummary := oxValve.Summary();

    var fuelTank := PressureFedFuelTank(d, flows);
    var fuelAfterPipe := FeedLineOutlet(fuelTank, d.fuelFeedLineDp);
    var fuelValve := new Valve("fuel_valve", d.fuelValveDp, None);
    var fuelAfterValve := fuelValve.Compute(fuelAfterPipe);
    var fuelValveSummary := fuelValve.Summary();

    var summaries := [FeedLineSummary("ox_feed_line", d.oxFeedLineDp), oxValveSummary,
                      FeedLineSummary("fuel_feed_line", d.fuelFeedLineDp), fuelValveSummary];
    perf := CyclePerformance("pressure_fed", d.chamberPressure, d.thrust, flows.total, d.mixtureRatio,
                             DeliveredIsp(d.thrust, flows.total), d.cStar, 0.0, 0.0, 0.0,
                             oxTank.pressure, fuelTank.pressure, summaries);
  }

  /** Whenever Pc plus the oxidizer losses exceeds the pump-fed suction
      pressure, the pressure-fed oxidizer tank is strictly above the
      pump-fed one; the default definition at 20 bar is such a case. */
  lemma PressureFedTankAbovePumpFed(d: CycleDefinition)
    ensures d.chamberPressure + InjectorDp(d) + d.oxFeedLineDp + d.oxValveDp > PUMP_FED_TANK_PRESSURE ==>
              RequiredTankPressure(d, d.oxFeedLineDp, d.oxValveDp) > PUMP_FED_TANK_PRESSURE
    ensures RequiredTankPressure(DefaultDefinition(PressureFed), 50000.0, 50000.0) == 2.4e6
  {
    var dd := DefaultDefinition(PressureFed);
    assert InjectorDp(dd) == 300000.0;
  }

  // ---------------------------------------------------------------------
  // Pump inlets shared by the two turbopump cycles

  /** The oxidizer pump inlet: the tank at suction pressure, 90 K. */
  function OxPumpInlet(d: CycleDefinition, flows: MassFlows): FluidState
  {
    State(PUMP_FED_TANK_PRESSURE, 90.0, flows.ox, d.oxDensity, 0.0, 0.0, "oxidizer")
  }

  /** The fuel pump inlet: the tank at suction pressure, 293 K. */
  function FuelPumpInlet(d: CycleDefinition, flows: MassFlows): FluidState
  {
    State(PUMP_FED_TANK_PRESSURE, 293.0, flows.fuel, d.fuelDensity, 0.0, 0.0, "fuel")
  }

  /** The bracket root brentq returns, as a position t in [0, 1] from a to b. */
  function BrentRoot(a: real, b: real, t: real): (x: real)
    ensures 0.0 <= t <= 1.0 && a <= b ==> a <= x <= b
    ensures t == 0.0 ==> x == a
    ensures t == 1.0 ==> x == b
  {
    if 0.0 <= t <= 1.0 && a <= b then
      MulLeMono(0.0, t, b - a);
      MulLeMono(t, 1.0, b - a);
      a + Mul(t, b - a)
    else a + Mul(t, b - a)
  }

  /** brentq raises ValueError exactly when the residual has the same
      strict sign at both ends of the bracket. */
  predicate NotBracketed(fa: real, fb: real)
  {
    fa * fb > 0.0
  }

  // ---------------------------------------------------------------------
  // Gas-generator cycle

  /** The common pump discharge pressure of the gas-generator cycle. Both
      pumps use it, so the fuel pump also covers the oxidizer feed-line and
      valve losses. */
  function GGDischargePressure(d: CycleDefinition): real
  {
    d.chamberPressure + InjectorDp(d) + d.oxFeedLineDp + d.oxValveDp
  }

  /** The two pumps of the gas-generator cycle, from suction pressure to
      the common discharge pressure. */
  function GGPumps(d: CycleDefinition, flows: MassFlows): (r: (PumpResult, PumpResult))
    ensures r.0 == PumpSolve(OxPumpInlet(d, flows), GGDischargePressure(d), 0.0, d.oxPumpEfficiency)
    ensures r.1 == PumpSolve(FuelPumpInlet(d, flows), GGDischargePressure(d), 0.0, d.fuelPumpEfficiency)
    ensures r.0.outlet.pressure == r.1.outlet.pressure
            == d.chamberPressure + InjectorDp(d) + d.oxFeedLineDp + d.oxValveDp
    ensures r.0.pressureRise == r.1.pressureRise == GGDischargePressure(d) - PUMP_FED_TANK_PRESSURE
  {
    (PumpSolve(OxPumpInlet(d, flows), GGDischargePressure(d), 0.0, d.oxPumpEfficiency),
     PumpSolve(FuelPumpInlet(d, flows), GGDischargePressure(d), 0.0, d.fuelPumpEfficiency))
  }

  /** Total shaft power drawn by the two gas-generator pumps. */
  function GGPumpPower(d: CycleDefinition, flows: MassFlows): (w: real)
    ensures w == GGPumps(d, flows).0.shaftPower + GGPumps(d, flows).1.shaftPower
  {
    var pumps := GGPumps(d, flows);
    pumps.0.shaftPower + pumps.1.shaftPower
  }

  /** The gas-generator exhaust entering the turbine at 0.9 Pc. */
  function GGTurbineInlet(d: CycleDefinition, ggFlow: real): FluidState
  {
    State(d.chamberPressure * 0.9, d.turbineInletTemperature, ggFlow, 5.0, 0.0, 0.0, "gg_exhaust")
  }

  /** What the gas-generator turbine needs to be evaluated at all. */
  predicate GGTurbineRuns(d: CycleDefinition)
  {
    d.chamberPressure != 0.0 && d.turbineGasGamma != 0.0
  }

  /** The turbine expanding gas-generator flow `ggFlow` to the exhaust. */
  function GGTurbine(d: CycleDefinition, ggFlow: real, pow: PowFn): (r: TurbineResult)
    requires GGTurbineRuns(d)
    ensures r.inlet == GGTurbineInlet(d, ggFlow) && r.outlet.pressure == GG_EXHAUST_PRESSURE
    ensures r.outlet.massFlow == ggFlow
  {
    assert d.chamberPressure * 0.9 != 0.0;
    TurbineSolve(GGTurbineInlet(d, ggFlow), GG_EXHAUST_PRESSURE, d.turbineGasGamma, d.turbineGasCp,
                 d.turbineEfficiency, pow)
  }

  /** The power-balance residual |turbine power| - pump power. */
  function GGResidual(d: CycleDefinition, ggFlow: real, pumpPower: real, pow: PowFn): (res: real)
    requires GGTurbineRuns(d)
    ensures res + pumpPower == Abs(GGTurbine(d, ggFlow, pow).shaftPower)
  {
    Abs(GGTurbine(d, ggFlow, pow).shaftPower) - pumpPower
  }

  /** The ideal specific work of the turbine at the definition's pressure
      ratio: eta cp T_in (1 - (1/PR)^((gamma - 1)/gamma)). */
  function GGSpecificWork(d: CycleDefinition, pow: PowFn): real
    requires d.turbinePressureRatio != 0.0 && d.turbineGasGamma != 0.0
  {
    var g := d.turbineGasGamma;
    var dtIdeal := d.turbineInletTemperature * (1.0 - pow(1.0 / d.turbinePressureRatio, (g - 1.0) / g));
    d.turbineEfficiency * d.turbineGasCp * dtIdeal
  }

  /** The fallback gas-generator flow: the pump power over the specific
      work when that work is positive, else 0.01 kg/s. With positive work
      the fallback flow delivers exactly the pump power. */
  function GGFallbackFlow(d: CycleDefinition, pumpPower: real, pow: PowFn): (m: real)
    requires d.turbinePressureRatio != 0.0 && d.turbineGasGamma != 0.0
    ensures GGSpecificWork(d, pow) > 0.0 ==> m * GGSpecificWork(d, pow) == pumpPower
    ensures GGSpecificWork(d, pow) <= 0.0 ==> m == 0.01
  {
    var w := GGSpecificWork(d, pow);
    if w > 0.0 then pumpPower / w else 0.01
  }

  /** The upper end of the gas-generator bracket, a fifth of the total flow. */
  function GGFlowHigh(flows: MassFlows): real
  {
    flows.total * 0.2
  }

  /** What the gas-generator solve needs: a runnable turbine, a root
      position inside the bracket, and a non-zero pressure ratio whenever
      the bracket fails. */
  predicate GGSolvable(d: CycleDefinition, n: Numerics)
  {
    && Sizable(d, n.cf)
    && GGTurbineRuns(d)
    && 0.0 <= n.ggRoot <= 1.0
    && (NotBracketed(GGResidual(d, GG_FLOW_LOW, GGPumpPower(d, FlowRates(d, n.cf)), n.pow),
                     GGResidual(d, GGFlowHigh(FlowRates(d, n.cf)), GGPumpPower(d, FlowRates(d, n.cf)), n.pow))
        ==> d.turbinePressureRatio != 0.0)
  }

  /** The balanced gas-generator flow: the fallback estimate when the
      residual does not change sign over [1e-4, 0.2 mdot], else the root. */
  function GGBalancedFlow(d: CycleDefinition, n: Numerics): (m: real)
    requires GGSolvable(d, n)
    ensures var flows := FlowRates(d, n.cf);
            var pumpPower := GGPumpPower(d, flows);
            NotBracketed(GGResidual(d, GG_FLOW_LOW, pumpPower, n.pow), GGResidual(d, GGFlowHigh(flows), pumpPower, n.pow))
            ==> m == GGFallbackFlow(d, pumpPower, n.pow)
    ensures var flows := FlowRates(d, n.cf);
            var pumpPower := GGPumpPower(d, flows);
            !NotBracketed(GGResidual(d, GG_FLOW_LOW, pumpPower, n.pow), GGResidual(d, GGFlowHigh(flows), pumpPower, n.pow))
            ==> m == BrentRoot(GG_FLOW_LOW, GGFlowHigh(flows), n.ggRoot)
    ensures var flows := FlowRates(d, n.cf);
            var pumpPower := GGPumpPower(d, flows);
            !NotBracketed(GGResidual(d, GG_FLOW_LOW, pumpPower, n.pow), GGResidual(d, GGFlowHigh(flows), pumpPower, n.pow))
            && GG_FLOW_LOW <= GGFlowHigh(flows)
            ==> GG_FLOW_LOW <= m <= GGFlowHigh(flows)
  {
    var flows := FlowRates(d, n.cf);
    var pumpPower := GGPumpPower(d, flows);
    var fa := GGResidual(d, GG_FLOW_LOW, pumpPower, n.pow);
    var fb := GGResidual(d, GGFlowHigh(flows), pumpPower, n.pow);
    if NotBracketed(fa, fb) then GGFallbackFlow(d, pumpPower, n.pow)
    else BrentRoot(GG_FLOW_LOW, GGFlowHigh(flows), n.ggRoot)
  }

  /** The residual closure of the gas-generator search: it recomputes the
      shared turbine at the trial flow, overwriting its cached result. */
  method GGPowerResidual(turbine: Turbine, d: CycleDefinition, ggFlow: real, pumpPower: real, pow: PowFn)
    returns (res: real)
    requires GGTurbineRuns(d) && turbine.efficiency == d.turbineEfficiency
    modifies turbine
    ensures turbine.result == Some(GGTurbine(d, ggFlow, pow))
    ensures res == GGResidual(d, ggFlow, pumpPower, pow)
  {
    assert d.chamberPressure * 0.9 != 0.0;
    var _ := turbine.Compute(GGTurbineInlet(d, ggFlow), GG_EXHAUST_PRESSURE, d.turbineGasGamma, d.turbineGasCp, pow);
    res := Abs(turbine.Power()) - pumpPower;
  }

  /** The summary entry of the gas generator. */
  function GGSummary(ggFlow: real): (m: Summary)
    ensures m.Keys == {"name", "type", "mass_flow"} && m["mass_flow"] == Num(ggFlow)
  {
    map["name" := Text("gas_generator"), "type" := Text("gg"), "mass_flow" := Num(ggFlow)]
  }

  /** The gas-generator search: the residual at both ends of the flow
      bracket, then the fallback or the root. */
  method GGBalance(turbine: Turbine, d: CycleDefinition, n: Numerics, flows: MassFlows, pumpPower: real)
    returns (ggFlow: real)
    requires GGSolvable(d, n) && flows == FlowRates(d, n.cf) && pumpPower == GGPumpPower(d, flows)
    requires turbine.efficiency == d.turbineEfficiency
    modifies turbine
    ensures ggFlow == GGBalancedFlow(d, n)
  {
    var fa := GGPowerResidual(turbine, d, GG_FLOW_LOW, pumpPower, n.pow);
    var fb := GGPowerResidual(turbine, d, GGFlowHigh(flows), pumpPower, n.pow);
    if NotBracketed(fa, fb) {
      ggFlow := GGFallbackFlow(d, pumpPower, n.pow);
    } else {
      ggFlow := BrentRoot(GG_FLOW_LOW, GGFlowHigh(flows), n.ggRoot);
    }
  }

  /** `_solve_gas_generator`: tanks at suction pressure, both pumps to the
      common discharge pressure, the turbine at the balanced gas-generator
      flow, and the residual reported as turbine minus pump power. */
  method SolveGasGenerator(d: CycleDefinition, n: Numerics) returns (perf: CyclePerformance)
    requires GGSolvable(d, n)
    ensures perf.cycleType == "gas_generator" && CopiesOperatingPoint(perf, d)
    ensures perf.totalMassFlow == FlowRates(d, n.cf).total
    ensures perf.ispDelivered == DeliveredIsp(d.thrust, perf.totalMassFlow)
    ensures perf.tankPressureOx == PUMP_FED_TANK_PRESSURE && perf.tankPressureFuel == PUMP_FED_TANK_PRESSURE
    ensures perf.pumpPowerTotal == GGPumpPower(d, FlowRates(d, n.cf))
    ensures perf.turbinePowerTotal == Abs(GGTurbine(d, GGBalancedFlow(d, n), n.pow).shaftPower)
    ensures perf.powerBalanceError == perf.turbinePowerTotal - perf.pumpPowerTotal
    ensures |perf.componentSummaries| == 4
    ensures Named(perf.componentSummaries[0], "ox_pump")
    ensures Named(perf.componentSummaries[1], "fuel_pump")
    ensures Named(perf.componentSummaries[2], "gg_turbine")
    ensures perf.componentSummaries[3] == GGSummary(GGBalancedFlow(d, n))
  {
    var flows := FlowRates(d, n.cf);
    var oxPump := new Pump("ox_pump", d.oxPumpEfficiency);
    var fuelPump := new Pump("fuel_pump", d.fuelPumpEfficiency);
    var _ := oxPump.Compute(OxPumpInlet(d, flows), GGDischargePressure(d), 0.0);
    var _ := fuelPump.Compute(FuelPumpInlet(d, flows), GGDischargePressure(d), 0.0);
    var totalPumpPower := oxPump.Power() + fuelPump.Power();
    assert totalPumpPower == GGPumpPower(d, flows);

    var turbine := new Turbine("gg_turbine", d.turbineEfficiency);
    var ggFlow := GGBalance(turbine, d, n, flows, totalPumpPower);
    var _ := GGPowerResidual(turbine, d, ggFlow, totalPumpPower, n.pow);
    var turbinePower := Abs(turbine.Power());
    var summaries := [oxPump.Summary(), fuelPump.Summary(), turbine.Summary(), GGSummary(ggFlow)];
    perf := CyclePerformance("gas_generator", d.chamberPressure, d.thrust, flows.total, d.mixtureRatio,
                             DeliveredIsp(d.thrust, flows.total), d.cStar, totalPumpPower, turbinePower,
                             turbinePower - totalPumpPower, PUMP_FED_TANK_PRESSURE, PUMP_FED_TANK_PRESSURE,
                             summaries);
  }

  /** The fallback flow balances the definition's ideal turbine work
      against the pumps exactly, and a positive pump power needs a positive
      flow. */
  lemma FallbackBalancesPumps(d: CycleDefinition, pumpPower: real, pow: PowFn)
    requires d.turbinePressureRatio != 0.0 && d.turbineGasGamma != 0.0
    requires GGSpecificWork(d, pow) > 0.0 && pumpPower > 0.0
    ensures GGFallbackFlow(d, pumpPower, pow) > 0.0
    ensures GGFallbackFlow(d, pumpPower, pow) * GGSpecificWork(d, pow) == pumpPower
  {
    PosDivPos(pumpPower, GGSpecificWork(d, pow));
  }

  // ---------------------------------------------------------------------
  // Expander cycle

  /** The pump discharge bracket of the expander search: the minimum covers
      Pc, the injector drop, the jacket drop and 1 bar of turbine head, and
      the maximum is 50 bar above it. */
  function ExpanderBracket(d: CycleDefinition): (r: (real, real))
    ensures r.0 == d.chamberPressure + InjectorDp(d) + d.hxDpCold + 1.0e5
    ensures r.1 == r.0 + 50.0e5
  {
    var pMin := d.chamberPressure + InjectorDp(d) + d.hxDpCold + 1.0e5;
    (pMin, pMin + 50.0e5)
  }

  /** The turbine outlet feeds the injector: Pc plus the injector drop. */
  function ExpanderTurbineOutletPressure(d: CycleDefinition): real
  {
    d.chamberPressure + InjectorDp(d)
  }

  /** The oxidizer pump of the expander cycle, discharging to Pc plus the
      injector and oxidizer valve drops. */
  function ExpanderOxPump(d: CycleDefinition, flows: MassFlows): (r: PumpResult)
    ensures r.outlet.pressure == d.chamberPressure + InjectorDp(d) + d.oxValveDp
    ensures r.inlet == OxPumpInlet(d, flows)
  {
    PumpSolve(OxPumpInlet(d, flows), d.chamberPressure + InjectorDp(d) + d.oxValveDp, 0.0, d.oxPumpEfficiency)
  }

  /** The fuel pump of the expander cycle at the trial discharge pressure. */
  function ExpanderFuelPump(d: CycleDefinition, flows: MassFlows, pOut: real): (r: PumpResult)
    ensures r.outlet.pressure == pOut && r.inlet == FuelPumpInlet(d, flows)
  {
    PumpSolve(FuelPumpInlet(d, flows), pOut, 0.0, d.fuelPumpEfficiency)
  }

  /** The fuel entering the cooling jacket: the pump discharge, warmed by
      the pump work at cp = 2500. */
  function ExpanderColdInlet(d: CycleDefinition, flows: MassFlows, pOut: real): (s: FluidState)
    requires flows.fuel != 0.0
    ensures s.pressure == pOut && s.massFlow == flows.fuel
    ensures (s.temperature - 293.0) * (flows.fuel * 2500.0) == ExpanderFuelPump(d, flows, pOut).shaftPower
  {
    var w := ExpanderFuelPump(d, flows, pOut).shaftPower;
    State(pOut, 293.0 + w / (flows.fuel * 2500.0), flows.fuel, d.fuelDensity, 0.0, 0.0, "fuel")
  }

  /** The hot side of the jacket: the chamber gas represented at 40% of Tc. */
  function ExpanderHotInlet(d: CycleDefinition, flows: MassFlows): (s: FluidState)
    ensures s.temperature * 10.0 == 4.0 * d.tc && s.pressure == d.chamberPressure
    ensures s.massFlow == flows.total
  {
    State(d.chamberPressure, d.tc * 0.4, flows.total, 5.0, 0.0, 0.0, "hot_gas")
  }

  /** The cooling jacket at the trial discharge pressure. */
  function ExpanderJacket(d: CycleDefinition, flows: MassFlows, pOut: real): (r: HeatExchangerResult)
    requires flows.fuel != 0.0
    ensures r.coldInlet == ExpanderColdInlet(d, flows, pOut) && r.hotInlet == ExpanderHotInlet(d, flows)
    ensures r.coldOutlet.pressure == pOut - d.hxDpCold
    ensures r.coldOutlet.temperature <= Max(d.tc * 0.4, ExpanderColdInlet(d, flows, pOut).temperature)
  {
    HeatExchangerSolve(ExpanderHotInlet(d, flows), ExpanderColdInlet(d, flows, pOut), 1500.0, 2500.0,
                       d.hxEffectiveness, d.hxDpHot, d.hxDpCold)
  }

  /** The heated fuel entering the turbine: the jacket's cold outlet at half
      the liquid density. */
  function ExpanderTurbineInlet(d: CycleDefinition, flows: MassFlows, heated: FluidState): (s: FluidState)
    ensures s.pressure == heated.pressure && s.temperature == heated.temperature
    ensures s.enthalpy == heated.enthalpy && s.massFlow == flows.fuel
  {
    State(heated.pressure, heated.temperature, flows.fuel, d.fuelDensity * 0.5, heated.enthalpy, 0.0, "fuel_vapor")
  }

  /** The trial discharge pressures at which the turbine can be evaluated:
      the heated fuel keeps a non-zero pressure whenever the turbine
      exhausts to a positive pressure. */
  predicate ExpanderRuns(d: CycleDefinition, flows: MassFlows, pOut: real)
  {
    flows.fuel != 0.0 && (ExpanderTurbineOutletPressure(d) > 0.0 ==> pOut - d.hxDpCold != 0.0)
  }

  /** The expander turbine at the trial discharge pressure. */
  function ExpanderTurbine(d: CycleDefinition, flows: MassFlows, pOut: real, pow: PowFn): (r: TurbineResult)
    requires ExpanderRuns(d, flows, pOut)
    ensures r.inlet == ExpanderTurbineInlet(d, flows, ExpanderJacket(d, flows, pOut).coldOutlet)
    ensures r.outlet.pressure == ExpanderTurbineOutletPressure(d)
  {
    var heated := ExpanderJacket(d, flows, pOut).coldOutlet;
    TurbineSolve(ExpanderTurbineInlet(d, flows, heated), ExpanderTurbineOutletPressure(d), 1.15, 2500.0,
                 d.turbineEfficiency, pow)
  }

  /** Total pump power of the expander cycle at the trial pressure. */
  function ExpanderPumpPower(d: CycleDefinition, flows: MassFlows, pOut: real): real
  {
    ExpanderOxPump(d, flows).shaftPower + ExpanderFuelPump(d, flows, pOut).shaftPower
  }

  /** The expander residual |turbine power| - total pump power. */
  function ExpanderResidual(d: CycleDefinition, flows: MassFlows, pOut: real, pow: PowFn): (res: real)
    requires ExpanderRuns(d, flows, pOut)
    ensures res + ExpanderPumpPower(d, flows, pOut) == Abs(ExpanderTurbine(d, flows, pOut, pow).shaftPower)
  {
    Abs(ExpanderTurbine(d, flows, pOut, pow).shaftPower) - ExpanderPumpPower(d, flows, pOut)
  }

  /** At every pressure of the bracket the heated fuel stays above the
      turbine outlet pressure by at least 1 bar, so the turbine can run. */
  lemma BracketKeepsTurbineHead(d: CycleDefinition, flows: MassFlows, p: real)
    requires flows.fuel != 0.0 && ExpanderBracket(d).0 <= p
    ensures p - d.hxDpCold >= ExpanderTurbineOutletPressure(d) + 1.0e5
    ensures ExpanderRuns(d, flows, p)
  {
  }

  /** The balanced discharge pressure: the bracket midpoint when the
      residual does not change sign, else the root. */
  function ExpanderBalancePressure(d: CycleDefinition, flows: MassFlows, n: Numerics): (p: real)
    requires flows.fuel != 0.0 && 0.0 <= n.expanderRoot <= 1.0
    ensures ExpanderBracket(d).0 <= p <= ExpanderBracket(d).1
    ensures var (pMin, pMax) := ExpanderBracket(d);
            NotBracketed(ExpanderResidual(d, flows, pMin, n.pow), ExpanderResidual(d, flows, pMax, n.pow))
            ==> p == (pMin + pMax) / 2.0
    ensures var (pMin, pMax) := ExpanderBracket(d);
            !NotBracketed(ExpanderResidual(d, flows, pMin, n.pow), ExpanderResidual(d, flows, pMax, n.pow))
            ==> p == BrentRoot(pMin, pMax, n.expanderRoot)
  {
    var (pMin, pMax) := ExpanderBracket(d);
    BracketKeepsTurbineHead(d, flows, pMin);
    BracketKeepsTurbineHead(d, flows, pMax);
    if NotBracketed(ExpanderResidual(d, flows, pMin, n.pow), ExpanderResidual(d, flows, pMax, n.pow)) then
      (pMin + pMax) / 2.0
    else BrentRoot(pMin, pMax, n.expanderRoot)
  }

  /** The residual closure of the expander search: it recomputes both pumps,
      the jacket and the turbine at the trial discharge pressure,
      overwriting their cached results. The jacket always has a cold outlet
      after `Compute`, so the source's "no outlet" branch cannot be taken. */
  method ExpanderPowerResidual(oxPump: Pump, fuelPump: Pump, jacket: HeatExchanger, turbine: Turbine,
                               d: CycleDefinition, flows: MassFlows, pOut: real, pow: PowFn)
    returns (res: real)
    requires ExpanderRuns(d, flows, pOut) && oxPump != fuelPump
    requires oxPump.efficiency == d.oxPumpEfficiency && fuelPump.efficiency == d.fuelPumpEfficiency
    requires jacket.effectiveness == d.hxEffectiveness && jacket.dpHot == d.hxDpHot && jacket.dpCold == d.hxDpCold
    requires turbine.efficiency == d.turbineEfficiency
    modifies oxPump, fuelPump, jacket, turbine
    ensures oxPump.result == Some(ExpanderOxPump(d, flows))
    ensures fuelPump.result == Some(ExpanderFuelPump(d, flows, pOut))
    ensures jacket.result == Some(ExpanderJacket(d, flows, pOut))
    ensures turbine.result == Some(ExpanderTurbine(d, flows, pOut, pow))
    ensures res == ExpanderResidual(d, flows, pOut, pow)
  {
    var _ := oxPump.Compute(OxPumpInlet(d, flows), d.chamberPressure + InjectorDp(d) + d.oxValveDp, 0.0);
    var _ := fuelPump.Compute(FuelPumpInlet(d, flows), pOut, 0.0);
    var totalPump := oxPump.Power() + fuelPump.Power();
    var coldIn := State(pOut, 293.0 + fuelPump.Power() / (flows.fuel * 2500.0), flows.fuel, d.fuelDensity,
                        0.0, 0.0, "fuel");
    assert coldIn == ExpanderColdInlet(d, flows, pOut);
    var hotIn := State(d.chamberPressure, d.tc * 0.4, flows.total, 5.0, 0.0, 0.0, "hot_gas");
    var _ := jacket.Compute(hotIn, Some(coldIn), 1500.0, 2500.0);
    var heated := jacket.ColdOutlet().value;
    var turbineInlet := ExpanderTurbineInlet(d, flows, heated);
    var _ := turbine.Compute(turbineInlet, ExpanderTurbineOutletPressure(d), 1.15, 2500.0, pow);
    res := Abs(turbine.Power()) - totalPump;
  }

  /** The expander search: the residual at both ends of the pressure
      bracket, then the midpoint or the root. */
  method ExpanderBalance(oxPump: Pump, fuelPump: Pump, jacket: HeatExchanger, turbine: Turbine,
                         d: CycleDefinition, n: Numerics, flows: MassFlows)
    returns (pBalanced: real)
    requires flows.fuel != 0.0 && 0.0 <= n.expanderRoot <= 1.0 && oxPump != fuelPump
    requires oxPump.efficiency == d.oxPumpEfficiency && fuelPump.efficiency == d.fuelPumpEfficiency
    requires jacket.effectiveness == d.hxEffectiveness && jacket.dpHot == d.hxDpHot && jacket.dpCold == d.hxDpCold
    requires turbine.efficiency == d.turbineEfficiency
    modifies oxPump, fuelPump, jacket, turbine
    ensures pBalanced == ExpanderBalancePressure(d, flows, n)
  {
    var (pMin, pMax) := ExpanderBracket(d);
    BracketKeepsTurbineHead(d, flows, pMin);
    BracketKeepsTurbineHead(d, flows, pMax);
    var fa := ExpanderPowerResidual(oxPump, fuelPump, jacket, turbine, d, flows, pMin, n.pow);
    var fb := ExpanderPowerResidual(oxPump, fuelPump, jacket, turbine, d, flows, pMax, n.pow);
    if NotBracketed(fa, fb) {
      pBalanced := (pMin + pMax) / 2.0;
    } else {
      pBalanced := BrentRoot(pMin, pMax, n.expanderRoot);
    }
  }

  /** `_solve_expander`: tanks at suction pressure, the search for the fuel
      pump discharge pressure that balances turbine and pump power, and a
      final evaluation at the balanced pressure whose pump and turbine
      powers are reported. */
  method SolveExpander(d: CycleDefinition, n: Numerics) returns (perf: CyclePerformance)
    requires Sizable(d, n.cf) && 0.0 <= n.expanderRoot <= 1.0
    ensures perf.cycleType == "expander" && CopiesOperatingPoint(perf, d)
    ensures perf.totalMassFlow == FlowRates(d, n.cf).total
    ensures perf.ispDelivered == DeliveredIsp(d.thrust, perf.totalMassFlow)
    ensures perf.tankPressureOx == PUMP_FED_TANK_PRESSURE && perf.tankPressureFuel == PUMP_FED_TANK_PRESSURE
    ensures var flows := FlowRates(d, n.cf);
            var p := ExpanderBalancePressure(d, flows, n);
            perf.pumpPowerTotal == ExpanderPumpPower(d, flows, p)
            && perf.turbinePowerTotal == Abs(ExpanderTurbine(d, flows, p, n.pow).shaftPower)
    ensures perf.powerBalanceError == perf.turbinePowerTotal - perf.pumpPowerTotal
    ensures |perf.componentSummaries| == 4
    ensures Named(perf.componentSummaries[0], "ox_pump")
    ensures Named(perf.componentSummaries[1], "fuel_pump")
    ensures Named(perf.componentSummaries[2], "regen_jacket")
    ensures Named(perf.componentSummaries[3], "expander_turbine")
  {
    var flows := FlowRates(d, n.cf);
    var oxPump := new Pump("ox_pump", d.oxPumpEfficiency);
    var fuelPump := new Pump("fuel_pump", d.fuelPumpEfficiency);
    var jacket := new HeatExchanger("regen_jacket", d.hxEffectiveness, d.hxDpHot, d.hxDpCold);
    var turbine := new Turbine("expander_turbine", d.turbineEfficiency);

    var pBalanced := ExpanderBalance(oxPump, fuelPump, jacket, turbine, d, n, flows);
    BracketKeepsTurbineHead(d, flows, pBalanced);

    var _ := ExpanderPowerResidual(oxPump, fuelPump, jacket, turbine, d, flows, pBalanced, n.pow);
    perf := ExpanderReport(oxPump, fuelPump, jacket, turbine, d, flows, ExpanderOxPump(d, flows),
                           ExpanderFuelPump(d, flows, pBalanced), ExpanderTurbine(d, flows, pBalanced, n.pow));
  }

  /** The expander's performance record, read off the four components
      after the final evaluation: the pumps hold `ox` and `fuel` and the
      turbine holds `tr`. It reports their powers, the difference as the
      balance error, and the summaries in flow order. */
  method ExpanderReport(oxPump: Pump, fuelPump: Pump, jacket: HeatExchanger, turbine: Turbine,
                        d: CycleDefinition, flows: MassFlows, ox: PumpResult, fuel: PumpResult, tr: TurbineResult)
    returns (perf: CyclePerformance)
    requires oxPump.name == "ox_pump" && fuelPump.name == "fuel_pump"
    requires jacket.name == "regen_jacket" && turbine.name == "expander_turbine"
    requires oxPump.result == Some(ox) && fuelPump.result == Some(fuel) && turbine.result == Some(tr)
    requires flows.total != 0.0
    ensures perf.cycleType == "expander" && CopiesOperatingPoint(perf, d)
    ensures perf.totalMassFlow == flows.total
    ensures perf.ispDelivered == DeliveredIsp(d.thrust, flows.total)
    ensures perf.tankPressureOx == PUMP_FED_TANK_PRESSURE && perf.tankPressureFuel == PUMP_FED_TANK_PRESSURE
    ensures perf.pumpPowerTotal == ox.shaftPower + fuel.shaftPower
    ensures perf.turbinePowerTotal == Abs(tr.shaftPower)
    ensures perf.powerBalanceError == perf.turbinePowerTotal - perf.pumpPowerTotal
    ensures |perf.componentSummaries| == 4
    ensures Named(perf.componentSummaries[0], "ox_pump")
    ensures Named(perf.componentSummaries[1], "fuel_pump")
    ensures Named(perf.componentSummaries[2], "regen_jacket")
    ensures Named(perf.componentSummaries[3], "expander_turbine")
  {
    var totalPumpPower := oxPump.Power() + fuelPump.Power();
    var turbinePower := Abs(turbine.Power());
    var summaries := [oxPump.Summary(), fuelPump.Summary(), jacket.Summary(), turbine.Summary()];
    perf := CyclePerformance("expander", d.chamberPressure, d.thrust, flows.total, d.mixtureRatio,
                             DeliveredIsp(d.thrust, flows.total), d.cStar, totalPumpPower, turbinePower,
                             turbinePower - totalPumpPower, PUMP_FED_TANK_PRESSURE, PUMP_FED_TANK_PRESSURE,
                             summaries);
  }

  /** The expander streams at any pressure of the bracket: the turbine
      sees the jacket outlet pressure, at least 1 bar above its outlet at
      the injector, and the heated fuel is never hotter than the larger of
      the 0.4 Tc hot side and the pump-warmed fuel. */
  lemma ExpanderStreams(d: CycleDefinition, flows: MassFlows, p: real, pow: PowFn)
    requires flows.fuel != 0.0 && ExpanderBracket(d).0 <= p
    ensures ExpanderRuns(d, flows, p)
    ensures var t := ExpanderTurbine(d, flows, p, pow);
            t.inlet.pressure == p - d.hxDpCold
            && t.inlet.pressure - t.outlet.pressure >= 1.0e5
            && t.inlet.temperature <= Max(d.tc * 0.4, ExpanderColdInlet(d, flows, p).temperature)
  {
    BracketKeepsTurbineHead(d, flows, p);
  }

  // ---------------------------------------------------------------------
  // Dispatch

  /** What the dispatch needs for the chosen cycle. */
  predicate Solvable(d: CycleDefinition, n: Numerics)
  {
    match d.cycleType
    case PressureFed => Sizable(d, n.cf)
    case GasGenerator => GGSolvable(d, n)
    case Expander => Sizable(d, n.cf) && 0.0 <= n.expanderRoot <= 1.0
    case Unrecognised => true
  }

  /** The `cycle_type` string each solver reports. */
  function CycleName(t: CycleType): string
  {
    match t
    case PressureFed => "pressure_fed"
    case GasGenerator => "gas_generator"
    case Expander => "expander"
    case Unrecognised => ""
  }

  /** `solve_cycle`: each cycle type goes to its own solver and any other
      value raises ValueError. Every solved cycle delivers Isp = F/(mdot g0). */
  method SolveCycle(d: CycleDefinition, n: Numerics) returns (r: Outcome<CyclePerformance>)
    requires Solvable(d, n)
    ensures r.Fail? <==> d.cycleType == Unrecognised
    ensures r.Fail? ==> r.error == ValueError
    ensures r.Ok? ==> r.value.cycleType == CycleName(d.cycleType) && CopiesOperatingPoint(r.value, d)
    ensures r.Ok? ==> r.value.totalMassFlow == FlowRates(d, n.cf).total
                      && r.value.ispDelivered == DeliveredIsp(d.thrust, r.value.totalMassFlow)
  {
    match d.cycleType
    case PressureFed =>
      var perf := SolvePressureFed(d, n.cf);
      r := Ok(perf);
    case GasGenerator =>
      var perf := SolveGasGenerator(d, n);
      r := Ok(perf);
    case Expander =>
      var perf := SolveExpander(d, n);
      r := Ok(perf);
    case Unrecognised =>
      r := Fail(ValueError);
  }
}
