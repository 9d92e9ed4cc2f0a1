# RESA-Pro sizing core in Dafny

This project models the computational core of RESA-Pro, a rocket-engine
sizing and analysis tool, and proves properties of that model. It covers
five groups of code:

- **Cycle components and the cycle solver.** The components are the fluid
  state record, pump, turbine, valve, pipe and heat exchanger. Each
  component object caches its last result in `_result`, and its `power`
  and `summary` read that cache. The solver handles the pressure-fed,
  gas-generator and expander cycles, the flow split and the dispatch on
  the cycle type.
- **Sizing arithmetic.** This covers tanks and pressurant, feed-line
  losses and the pressure budget, injector design and chugging stability,
  the combustion table lookup and the thrust/c*/Isp relations, wall
  thermal analysis, regenerative cooling channels and the station-by-station
  coolant march, and nozzle angles, efficiency and flow separation.
- **Design optimisation bookkeeping.** This covers design variables and
  their normalisation, objectives, constraints and penalties, the
  evaluation of design points, best-point selection and Latin-hypercube
  placement.
- **The plugin registry.** Plugins are registered, removed, enabled,
  disabled, listed and run in an insertion-ordered dictionary.
- **Design validation.** A collector gathers severity-tagged messages, and
  a set of rules checks a chamber design.
- **The 3D mesh topology.** A contour is revolved into vertices and
  triangles, and a chamber contour is joined to a nozzle contour.

All physical quantities are exact reals. Transcendental functions enter as
parameters, each with only the facts the code relies on:

- fractional powers and square roots;
- the Swamee-Jain friction factor;
- the isentropic area-Mach relation;
- the Bartz and Dittus-Boelter correlations;
- cosine and sine.

The roots that SciPy's `brentq` finds and the points that the SciPy
optimisers try are inputs too. The model checks the brackets, the
fallbacks and the bookkeeping around them.

Python object state becomes Dafny classes wherever the source updates
fields in place:

- the component `_result` caches;
- the optimizer's lists of variables, objectives and constraints;
- the plugin registry;
- the list of validation messages.

Loops that update variables become methods with loop invariants, proved
against specification functions. These are the coolant march, the
penalty accumulation, best-point selection, the Latin-hypercube fill,
`run_all` and the mesh construction. Code that only computes a value
becomes functions and lemmas.

A Python crash that the source does not handle becomes a precondition.
This covers division by zero and an index past the end of a list. An
error the source raises or returns on purpose is modelled as an outcome:
KeyError, ValueError, TypeError and RuntimeError, or an error entry in a
result dictionary.

## Model

| member | source | states |
|---|---|---|
| FluidStates.DefaultState | resa_pro/cycle/components/base.py:21-28 | a default state has zero pressure, temperature, mass flow, density, enthalpy and entropy, quality -1, an empty fluid name, and is not two-phase |
| FluidStates.State | resa_pro/cycle/components/base.py:21-28 | a state built from named fields keeps each given field and the quality default -1, so it is single-phase |
| FluidStates.IsTwoPhase | resa_pro/cycle/components/base.py:30-32 | two-phase only for a quality in [0, 1], so never for the single-phase sentinel -1 |
| FluidStates.TwoPhaseCases | resa_pro/cycle/components/base.py:30-32 | `is_two_phase` holds exactly when 0 <= quality <= 1; quality 0.5 is two-phase and -1 is not |
| FluidStates.BaseSummary | resa_pro/cycle/components/base.py:64-70 | the base summary has exactly the keys name, type and power_W, holding the component name, its type and its power |
| PumpModel.PumpDensity | resa_pro/cycle/components/pump.py:71 | the working density is the inlet's when positive, else 1000, and is always positive |
| PumpModel.ActualWork | resa_pro/cycle/components/pump.py:75-77 | actual work times density times efficiency is the pressure rise; a non-positive efficiency is skipped |
| PumpModel.PumpCp | resa_pro/cycle/components/pump.py:86-91 | the specific heat is the given one when positive; otherwise 2000 exactly when the density exceeds 500, else 1000; always positive |
| PumpModel.PumpSolve | resa_pro/cycle/components/pump.py:70-110 | the outlet is at the requested pressure with the inlet's mass flow, entropy and fluid name; the enthalpy rise is the actual work dp / (rho * eta) (dp / rho for a non-positive eta) for every flow, zero included; shaft power = (h_out - h_in) * mdot; temperature rise times cp is the enthalpy rise |
| PumpModel.Pump.constructor | resa_pro/cycle/components/pump.py:40-43 | a new pump keeps its name and efficiency, has no result and reports zero power |
| PumpModel.Pump.Compute | resa_pro/cycle/components/pump.py:45-112 | `compute` records the pump model's result, returns its outlet, and afterwards `power()` is the shaft power |
| PumpModel.Pump.Power | resa_pro/cycle/components/pump.py:114-116 | zero before the first computation, the consumed shaft power of the latest result after it |
| PumpModel.Pump.Summary | resa_pro/cycle/components/pump.py:118-123 | the summary is the base one, plus the pressure rise in bar and the efficiency once a result exists |
| PumpModel.PowerIncreasesWithOutletPressure | resa_pro/cycle/components/pump.py:70-80 | with positive flow and efficiency, a higher outlet pressure needs strictly more shaft power |
| PumpModel.PowerDecreasesWithEfficiency | resa_pro/cycle/components/pump.py:75-80 | for a positive pressure rise and flow, a more efficient pump needs strictly less power |
| PumpModel.PumpHeatsFluid | resa_pro/cycle/components/pump.py:83-96 | a pressure rise raises enthalpy and temperature, and a larger specific heat gives a smaller temperature rise |
| PumpModel.NoRiseNoWork | resa_pro/cycle/components/pump.py:70-96 | no pressure rise means no power and an unchanged enthalpy and temperature |
| PumpModel.WorkedPumpCase | tests/test_cycle.py:56-68 | 0.5 kg/s of ethanol at 789 kg/m^3 pumped from 5 to 30 bar at 65 % draws (25e5/789)/0.65*0.5 W > 0 |
| ValveModel.CvPressureDrop | resa_pro/cycle/components/valve.py:52-57 | the Cv drop (3600 mdot / (rho Cv))^2 * (rho/1000) * 1e5 equals 100 (3600 mdot / Cv)^2 / rho and is never negative |
| ValveModel.ValveSolve | resa_pro/cycle/components/valve.py:43-75 | throttling lowers only the pressure, by the Cv drop when Cv is set and the density is positive, else by the fixed drop; temperature, flow, density, enthalpy, entropy and name pass through |
| ValveModel.Valve.constructor | resa_pro/cycle/components/valve.py:37-41 | a new valve keeps its settings and has no result |
| ValveModel.Valve.Compute | resa_pro/cycle/components/valve.py:43-77 | `compute` records the valve model's result and returns its outlet |
| ValveModel.Valve.Power | resa_pro/cycle/components/valve.py:79-81 | a valve consumes no shaft power |
| ValveModel.Valve.Summary | resa_pro/cycle/components/valve.py:79-87 | the summary is the base one with zero power, plus the last drop in bar once a result exists |
| ValveModel.FixedDropCase | resa_pro/cycle/components/valve.py:58-62 | a 50 kPa fixed-drop valve takes a 20 bar inlet to 19.5 bar |
| PipeModel.PipeDensity | resa_pro/cycle/components/pipe.py:70 | the working density is the inlet's when positive, else 1000 |
| PipeModel.PipeSolve | resa_pro/cycle/components/pipe.py:70-98 | the outlet loses the feed line's total drop; flow, temperature, enthalpy and name pass through, density is the one used, entropy and quality revert to their defaults |
| PipeModel.Pipe.constructor | resa_pro/cycle/components/pipe.py:43-58 | a new pipe keeps its geometry and has no result |
| PipeModel.Pipe.Compute | resa_pro/cycle/components/pipe.py:60-100 | `compute` records the pipe model's result and returns its outlet |
| PipeModel.Pipe.Power | resa_pro/cycle/components/pipe.py:102-104 | a pipe consumes no shaft power |
| PipeModel.Pipe.Summary | resa_pro/cycle/components/pipe.py:102-112 | the summary is the base one with zero power, plus drop in bar, velocity and Reynolds number once a result exists |
| PipeModel.LongerPipeLowerOutlet | resa_pro/cycle/components/pipe.py:72-84 | with a positive friction factor and a moving fluid, a longer pipe gives a strictly lower outlet pressure |
| TurbineModel.PressureRatio | resa_pro/cycle/components/turbine.py:65 | PR * p_out == p_in for a positive outlet pressure, else PR == 1; PR is 0 exactly for a zero inlet against a positive outlet |
| TurbineModel.ActualOutletTemperature | resa_pro/cycle/components/turbine.py:71 | the temperature falls the efficiency's fraction of the ideal drop, and for an efficiency in [0, 1] stays between the ideal and the inlet temperature |
| TurbineModel.ExpandedDensity | resa_pro/cycle/components/turbine.py:79-83 | rho_out * p_in * T_out == rho_in * p_out * T_in when p_in > 0 and T_out > 0; otherwise the inlet density |
| TurbineModel.TurbineSolve | resa_pro/cycle/components/turbine.py:65-100 | the outlet is at the requested pressure with the inlet's flow and name; shaft power = (h_in - h_out) * mdot and h_in - h_out = cp (T_in - T_out) |
| TurbineModel.Turbine.constructor | resa_pro/cycle/components/turbine.py:41-44 | a new turbine keeps name and efficiency, has no result and zero power |
| TurbineModel.Turbine.Compute | resa_pro/cycle/components/turbine.py:46-106 | `compute` records the turbine model's result, and `power()` then reports minus the shaft power (produced power is negative) |
| TurbineModel.Turbine.Power | resa_pro/cycle/components/turbine.py:104-106 | zero before the first computation, minus the shaft power after it, so a producing turbine reports a non-positive power |
| TurbineModel.Turbine.Summary | resa_pro/cycle/components/turbine.py:108-114 | the summary is the base one plus pressure ratio, efficiency and shaft power in kW once a result exists |
| TurbineModel.WorkFromIdealDrop | resa_pro/cycle/components/turbine.py:68-77 | shaft power = cp * efficiency * (T_in - T_ideal) * mdot |
| TurbineModel.TurbineProducesPower | resa_pro/cycle/components/turbine.py:68-77 | with a cooling expansion and positive efficiency, cp and flow, the turbine produces positive shaft power |
| TurbineModel.PowerIncreasesWithEfficiency | resa_pro/cycle/components/turbine.py:71-77 | a more efficient turbine extracts strictly more power from the same expansion |
| TurbineModel.PowerIncreasesAsFactorDecreases | resa_pro/cycle/components/turbine.py:65-77 | at a fixed inlet state, flow and efficiency, a smaller isentropic temperature factor gives strictly more power |
| TurbineModel.IdealTemperatureMono | resa_pro/cycle/components/turbine.py:68 | a smaller isentropic factor gives a lower ideal outlet temperature |
| TurbineModel.DensityAboveIsothermalEstimate | resa_pro/cycle/components/turbine.py:79-83 | when the gas cools on expansion the outlet density exceeds the isothermal estimate rho_in p_out / p_in |
| TurbineModel.NoExpansionNoWork | resa_pro/cycle/components/turbine.py:65-77 | with no pressure drop the temperature is unchanged and no power is produced |
| HeatExchangerModel.TemperatureChange | resa_pro/cycle/components/heat_exchanger.py:105-106 | a stream's temperature change times its capacitance rate is the heat flow when that rate is positive, else the change is zero |
| HeatExchangerModel.ExchangeHeat | resa_pro/cycle/components/heat_exchanger.py:96-117 | Q = eps * max(C_min (T_hot,in - T_cold,in), 0) unless the pinch clamp fires, in which case the cold rise is max(T_hot,in - T_cold,in, 0) and Q = dT_cold * C_cold; the cold outlet never exceeds max(T_hot,in, T_cold,in) |
| HeatExchangerModel.EnthalpyAfterLoss | resa_pro/cycle/components/heat_exchanger.py:124 | (h_in - h_out) * mdot == Q for a positive flow; otherwise the enthalpy is 0 |
| HeatExchangerModel.EnthalpyAfterGain | resa_pro/cycle/components/heat_exchanger.py:133 | (h_out - h_in) * mdot == Q for a positive flow; otherwise the enthalpy is 0 |
| HeatExchangerModel.HeatExchangerSolve | resa_pro/cycle/components/heat_exchanger.py:93-146 | both outlets lose their side's fixed pressure drop and keep flow, density and name; enthalpies move by Q per unit flow; the cold outlet stays at or below max(T_hot,in, T_cold,in) |
| HeatExchangerModel.HeatExchanger.constructor | resa_pro/cycle/components/heat_exchanger.py:54-65 | a new exchanger keeps its settings and has no result and no cold outlet |
| HeatExchangerModel.HeatExchanger.Compute | resa_pro/cycle/components/heat_exchanger.py:67-153 | `compute` uses the default state for a missing cold inlet, records the result, returns the hot outlet and exposes the cold outlet |
| HeatExchangerModel.HeatExchanger.ColdOutlet | resa_pro/cycle/components/heat_exchanger.py:151-153 | present exactly after a computation, and then the cold outlet of the latest result |
| HeatExchangerModel.HeatExchanger.Power | resa_pro/cycle/components/heat_exchanger.py:155-157 | a heat exchanger consumes no shaft power |
| HeatExchangerModel.HeatExchanger.Summary | resa_pro/cycle/components/heat_exchanger.py:159-166 | the summary is the base one with zero power, plus heat flow in kW, effectiveness and both drops in bar once a result exists |
| HeatExchangerModel.EnergyBalance | resa_pro/cycle/components/heat_exchanger.py:96-113 | with both capacitance rates positive, the heat the hot side loses is the heat the cold side gains (C_hot dT_hot == C_cold dT_cold == Q) |
| HeatExchangerModel.PinchClampsToHotInlet | resa_pro/cycle/components/heat_exchanger.py:108-113 | when the unclamped cold outlet would overshoot a hotter hot inlet, the cold outlet is exactly the hot inlet temperature |
| HeatExchangerModel.ZeroEffectivenessNoTransfer | resa_pro/cycle/components/heat_exchanger.py:101-106 | zero effectiveness transfers no heat and leaves both temperatures unchanged |
| HeatExchangerModel.PerfectExchangerReachesHotInlet | resa_pro/cycle/components/heat_exchanger.py:96-106 | with effectiveness 1 and the cold stream the smaller capacitance, the cold outlet reaches the hot inlet temperature |
| HeatExchangerModel.PerfectExchangerCase | tests/test_heat_exchanger.py:74-84 | 0.5 kg/s of fuel (cp 2500) at 300 K against 1 kg/s of gas (cp 1500) at 1200 K with effectiveness 1 is heated by 900 K |
| HeatExchangerModel.MissingColdInletNoTransfer | resa_pro/cycle/components/heat_exchanger.py:93-102 | without a cold inlet the zero-flow default state is used and no heat is transferred |
| FeedSystem.CylinderLength | resa_pro/core/feed_system.py:71-74 | the cylinder section holds what the two hemispherical caps do not: L * pi Ri^2 == max(V_total - 4/3 pi Ri^3, 0), L >= 0, and L == 0 for Ri <= 0 |
| FeedSystem.WallThickness | resa_pro/core/feed_system.py:76-77 | thin-wall hoop stress: t * sigma_y == P * Ri * SF |
| FeedSystem.SizeTank | resa_pro/core/feed_system.py:67-97 | V_prop * rho == m, V_total * (1 - ullage) == V_prop, Ri * 2 == D, the cylinder length and wall thickness above, and the shell mass from the cylinder and cap wall volumes |
| FeedSystem.UllageEnlargesTank | resa_pro/core/feed_system.py:68-69 | for a positive ullage fraction below 1 the total volume strictly exceeds the positive propellant volume |
| FeedSystem.WallThickensWithPressure | resa_pro/core/feed_system.py:77 | the wall gets strictly thicker with the tank pressure |
| FeedSystem.GasConstant | resa_pro/core/feed_system.py:154 | R_gas * M == R_universal |
| FeedSystem.GasMass | resa_pro/core/feed_system.py:156 | ideal-gas mass: m R T == P V M |
| FeedSystem.SizePressurantBlowdown | resa_pro/core/feed_system.py:149-167 | the gas fills the tank at the final (tank) pressure, the initial bottle pressure is ratio * final, and V_bottle * ratio == V_tank |
| FeedSystem.BlowdownMassProportionalToMolarMass | resa_pro/core/feed_system.py:154-156 | scaling the molar mass by k scales the blowdown gas mass by k, so helium needs less mass than nitrogen |
| FeedSystem.SizePressurantRegulated | resa_pro/core/feed_system.py:198-219 | V_bottle * (P_bottle - P_min) == P_reg * V_tank, the ratio * P_min == P_bottle, and the stored mass is the ideal-gas mass at the bottle pressure |
| FeedSystem.PipeArea | resa_pro/core/feed_system.py:268 | pi (D/2)^2 is non-negative and positive exactly for a non-zero diameter |
| FeedSystem.PipeVelocity | resa_pro/core/feed_system.py:269 | v * rho * A == mdot when A > 0, else v == 0 |
| FeedSystem.Reynolds | resa_pro/core/feed_system.py:270 | Re * mu == rho v D when mu > 0, else Re == 0 |
| FeedSystem.DarcyFriction | resa_pro/core/feed_system.py:273-278 | laminar (Re < 2300): f * max(Re, 1) == 64 and f > 0; otherwise the turbulent correlation's value |
| FeedSystem.DynamicPressure | resa_pro/core/feed_system.py:280-281 | 0.5 rho v^2 is non-negative for rho >= 0 and positive for rho > 0 and a moving fluid |
| FeedSystem.FeedLinePressureDrop | resa_pro/core/feed_system.py:268-293 | friction f (L/D) q, minor K q and gravity rho g0 dz terms, and their sum as the total |
| FeedSystem.GravityLossSign | resa_pro/core/feed_system.py:282 | the hydrostatic loss is positive for an upward line and zero on the level |
| FeedSystem.LongerLineLosesMore | resa_pro/core/feed_system.py:280-292 | with a positive friction factor and a moving fluid a longer line loses strictly more pressure |
| FeedSystem.ComputePressureBudget | resa_pro/core/feed_system.py:338-350 | the required tank pressure is (1 + margin fraction) times the sum of chamber pressure and all losses, the margin is the difference, and no margin means exactly the sum |
| FeedSystem.MarginRaisesTankPressure | resa_pro/core/feed_system.py:338-340 | a larger margin fraction strictly raises the required tank pressure when the losses are positive |
| Injector.OrificeMassFlow | resa_pro/core/injector.py:60-80 | mdot^2 == (Cd A)^2 * 2 rho dp, and mdot >= 0 for non-negative Cd and A |
| Injector.OrificeAreaFromFlow | resa_pro/core/injector.py:83-100 | A * Cd sqrt(2 rho dp) == mdot |
| Injector.AreaInvertsMassFlow | resa_pro/core/injector.py:60-100 | for positive Cd, rho and dp the area formula and the orifice equation invert each other in both directions |
| Injector.MassFlowIncreasesWithDp | resa_pro/core/injector.py:80 | a larger pressure drop drives strictly more flow through the same orifice |
| Injector.InjectionVelocity | resa_pro/core/injector.py:103-116 | v^2 == Cd^2 * 2 dp / rho, non-negative for Cd >= 0, positive for Cd > 0 and dp / rho > 0 |
| Injector.VelocityIncreasesWithDp | resa_pro/core/injector.py:116 | a larger pressure drop gives a strictly faster injection |
| Injector.CircleArea | resa_pro/core/injector.py:185 | pi (d/2)^2 is non-negative and zero exactly for d == 0 |
| Injector.CountFromArea | resa_pro/core/injector.py:186-192 | max(1, round(A_total / A_elem)) is at least 1 and, above 1, within 0.5 of the area quotient |
| Injector.DiameterFromArea | resa_pro/core/injector.py:180-194 | d = 2 sqrt(A / pi) is non-negative and its circle has area A |
| Injector.SizeSide | resa_pro/core/injector.py:178-194 | a given count is kept and the elements share the total area; a given diameter is kept with at least one element; the 1.5 mm target gives at least one element sharing the total area; the element's circle has the element area |
| Injector.DefaultInputs | resa_pro/core/injector.py:119-133 | the defaults are a 20 % drop fraction, no per-side override, Cd 0.65 and the 1.5 mm target element on both sides |
| Injector.FlowSplit | resa_pro/core/injector.py:164-165 | the oxidizer and fuel flows add up to the total and their ratio is the mixture ratio |
| Injector.DropFraction | resa_pro/core/injector.py:168-169 | a per-side override wins, otherwise the common drop fraction |
| Injector.DesignSide | resa_pro/core/injector.py:174-214 | one side's count and element as SizeSide gives them from the orifice area for its flow, with the side's Cd and injection velocity |
| Injector.MomentumRatio | resa_pro/core/injector.py:217 | finite exactly when the fuel velocity is positive, then ratio * mdot_f v_f == mdot_o v_o; otherwise +inf |
| Injector.InjectorOperatingPoint | resa_pro/core/injector.py:164-171 | the split, the per-side fractions and drops, and manifold pressure = Pc + drop on each side |
| Injector.DesignInjector | resa_pro/core/injector.py:119-245 | the design record holds the operating point, both sides' layouts and the momentum ratio |
| Injector.ManifoldRisesWithFraction | resa_pro/core/injector.py:168-171 | without an oxidizer override, a larger drop fraction strictly raises the oxidizer manifold pressure |
| Injector.StabilityMargin | resa_pro/core/injector.py:248-261 | margin * Pc == dp |
| Injector.CheckChuggingStability | resa_pro/core/injector.py:264-284 | the margin is dp_fraction - min_margin and the design is stable exactly when it is non-negative |
| Injector.StableIffDropLargeEnough | resa_pro/core/injector.py:248-284 | for Pc > 0 the design is stable exactly when dp >= min_margin * Pc |
| Injector.StabilityCases | tests/test_injector.py:129-139 | 4 bar on 20 bar is a 0.2 margin; 0.20 is stable and 0.10 is not against 0.15 |
| Thermo.CombustionTable | resa_pro/core/thermo.py:40-52 | the eleven tabulated rows all have positive c*, gamma above 1 and a chamber temperature above 2000 K |
| Thermo.LowerMeaning | resa_pro/core/thermo.py:74 | lower-casing keeps the length and maps each character on its own (ASCII letters down, everything else unchanged) |
| Thermo.MatchingMeaning | resa_pro/core/thermo.py:71-75 | the matching rows are exactly the table rows of the pair, compared case-insensitively |
| Thermo.ClosestIndex | resa_pro/core/thermo.py:82-84 | the chosen row is at least as close to the requested ratio as every row, and strictly closer than every earlier row (the stable sort's first) |
| Thermo.MaxCStarIndex | resa_pro/core/thermo.py:86-87 | the chosen row has the largest c*, and every earlier row has a strictly smaller one (`max` keeps the first) |
| Thermo.Lookup | resa_pro/core/thermo.py:55-87 | KeyError exactly when no row matches; otherwise a matching row that is closest in mixture ratio when one is given, or of largest c* when not |
| Thermo.NoMatchIffEmpty | resa_pro/core/thermo.py:71-80 | the match list is empty exactly when no table row belongs to the pair |
| Thermo.ClosestIsMinimal | resa_pro/core/thermo.py:82-84 | the closest matching row is at least as close as every matching row of the table |
| Thermo.MaxCStarIsMaximal | resa_pro/core/thermo.py:86-87 | the chosen row's c* is at least that of every matching row |
| Thermo.LookupCombustion | resa_pro/core/thermo.py:55-87 | a successful lookup in the built-in table yields positive c*, gamma above 1 and a chamber temperature above 2000 K |
| Thermo.LookupExactRatio | resa_pro/core/thermo.py:82-84 | a request for a mixture ratio that some matching row carries returns a row with that ratio |
| Thermo.LookupAtMixtureRatio | tests/test_thermo.py:152-158 | N2O/ethanol, in any letter case, at O/F 4 returns the O/F 4 row |
| Thermo.LookupBestCStar | tests/test_thermo.py:146-150 | N2O/ethanol, in any letter case, without a ratio returns a row with c* >= 1550, gamma above 1 and a chamber temperature above 2000 K |
| Thermo.LookupUnknownPair | resa_pro/core/thermo.py:76-80 | a pair whose oxidizer is "xenon" in any letter case raises KeyError, with or without a ratio |
| Thermo.SpecificImpulse | resa_pro/core/thermo.py:211-216 | Isp * g0 == c* * CF |
| Thermo.ExhaustVelocity | resa_pro/core/thermo.py:219-221 | ve = c* CF is positive for positive c* and CF |
| Thermo.ImpulseIsVelocityOverG0 | resa_pro/core/thermo.py:211-221 | Isp * g0 is the exhaust velocity |
| Thermo.ThroatArea | resa_pro/core/thermo.py:224-229 | At * CF * Pc == F |
| Thermo.MassFlowRate | resa_pro/core/thermo.py:232-237 | mdot * c* == Pc * At |
| Thermo.MassFlowForThrust | resa_pro/core/thermo.py:224-237 | sizing the throat for a thrust and taking its mass flow gives mdot * CF * c* == F |
| Thermo.MachFromAreaRatio | resa_pro/core/thermo.py:110-131 | ValueError exactly when the area ratio is below 1 or when brentq finds no sign change, that is, when the residual has the same strict sign at both ends of the bracket; otherwise a Mach number in [1, 50] for the supersonic branch and in [1e-6, 1] for the subsonic one, at the bracket ends for the root positions 0 and 1 |
| Thermal.StagnationRatio | resa_pro/core/thermal.py:164-165 | the stagnation-to-static ratio is 1 at rest, at least 1 for gamma >= 1 and above 1 for gamma > 1 in moving gas |
| Thermal.StaticTemperature | resa_pro/core/thermal.py:165 | the static temperature times the stagnation ratio is Tc; equal to Tc at rest and strictly between 0 and Tc in moving gas |
| Thermal.AdiabaticWallTemperature | resa_pro/core/thermal.py:143-167 | T_aw lies the recovery fraction of the way from the static temperature to Tc; equals Tc at rest or with recovery 1, and the static temperature with recovery 0 |
| Thermal.WallBelowChamber | resa_pro/core/thermal.py:164-167 | in moving gas with gamma > 1 and a recovery factor below 1 the adiabatic wall is colder than the chamber |
| Thermal.WallRisesWithRecovery | resa_pro/core/thermal.py:164-167 | in moving gas a larger recovery factor gives a strictly hotter adiabatic wall |
| Thermal.HeatFlux | resa_pro/core/thermal.py:170-175 | q = h (T_aw - T_wall): positive when the gas is hotter, negative when the wall is |
| Thermal.ZeroFluxIffEqualTemperatures | resa_pro/core/thermal.py:175 | with a non-zero coefficient the flux is zero exactly when the two temperatures are equal |
| Thermal.TotalResistance | resa_pro/core/thermal.py:295-298 | the total is the two film resistances plus the wall's t/k, positive for positive films and non-negative wall resistance |
| Thermal.NetworkFlux | resa_pro/core/thermal.py:300 | the flux times the total resistance is the driving difference T_aw - T_coolant |
| Thermal.WallTemperatureSimple | resa_pro/core/thermal.py:270-304 | each temperature drop (gas film, wall, coolant film) is the network flux times that resistance |
| Thermal.WallTemperatureOrdering | resa_pro/core/thermal.py:295-304 | positive films, a positive wall resistance and T_aw > T_coolant give T_coolant < T_wc < T_wg < T_aw |
| Thermal.RadiativeHeatRejection | resa_pro/core/thermal.py:259-264 | q = eps sigma T^4, non-negative for non-negative emissivity and positive for a positive one at a non-zero temperature |
| Thermal.RejectionRisesWithTemperature | resa_pro/core/thermal.py:264 | a hotter wall rejects strictly more heat |
| Thermal.RadiativeEquilibriumTemperature | resa_pro/core/thermal.py:241-256 | for a genuine fourth root, a non-negative temperature whose fourth power is q / (eps sigma) |
| Thermal.EquilibriumRejectsIncident | resa_pro/core/thermal.py:241-264 | a wall at the radiative equilibrium temperature rejects exactly the incident flux |
| Cooling.DefaultChannel | resa_pro/core/cooling.py:26-30 | the default channel is 1 mm wide, 2 mm deep, behind a 1 mm wall with 1 mm fins, 40 around |
| Cooling.Area | resa_pro/core/cooling.py:33-35 | the cross-section is w h, positive for a positive width and height |
| Cooling.WettedPerimeter | resa_pro/core/cooling.py:38-40 | half the perimeter is w + h |
| Cooling.HydraulicDiameter | resa_pro/core/cooling.py:43-45 | Dh P == 4 A; Dh is zero exactly when the area is, and positive for a positive width and height |
| Cooling.TotalFlowArea | resa_pro/core/cooling.py:48-50 | n A, positive (for at least one channel) exactly when one channel's area is |
| Cooling.SquareChannelDiameter | resa_pro/core/cooling.py:43-45 | a square channel's hydraulic diameter is its width |
| Cooling.ChannelCircumference | resa_pro/core/cooling.py:77 | the circumference is 2 pi times the radius to mid-channel (wall radius + wall + half the depth) |
| Cooling.SizeChannels | resa_pro/core/cooling.py:53-87 | the channel keeps the given dimensions; at least one channel, and when a pitch fits, as many whole pitches as fit the circumference |
| Cooling.PitchCount | resa_pro/core/cooling.py:79 | the truncated quotient n satisfies n pitch <= circumference < (n + 1) pitch |
| Cooling.CountGrowsWithRadius | resa_pro/core/cooling.py:76-79 | a larger wall radius never gives fewer channels |
| Cooling.CountFallsWithPitch | resa_pro/core/cooling.py:76-79 | a wider pitch never gives more channels |
| Cooling.ChannelFriction | resa_pro/core/cooling.py:174-195 | below Re 2300 the laminar 64 / max(Re, 1), positive; from 2300 on the turbulent correlation of eps/Dh and Re |
| Cooling.ChannelPressureDrop | resa_pro/core/cooling.py:147-171 | the drop is the channel length times the drop per metre, zero for zero length |
| Cooling.ChannelDropPerLength | resa_pro/core/cooling.py:171 | f / Dh rho v^2 / 2 is positive for positive Dh, density, friction factor and a non-zero velocity |
| Cooling.DropLinearInLength | resa_pro/core/cooling.py:171 | the drop is additive in length, and a longer channel loses strictly more when the drop per metre is positive |
| Cooling.Order | resa_pro/core/cooling.py:303-307 | the march visits n points, last to first with counter flow and first to last otherwise |
| Cooling.OrderVisitsEachPointOnce | resa_pro/core/cooling.py:303-307 | either order stays on the contour, never repeats a point and steps by one point at a time |
| Cooling.Dx | resa_pro/core/cooling.py:355-359 | the axial step is non-negative and zero at the first station |
| Cooling.HeatOver | resa_pro/core/cooling.py:365-367 | the heat over a step is zero for a zero step and non-negative for non-negative flux, radius and step |
| Cooling.StationHeat | resa_pro/core/cooling.py:365-367 | a station picks up its heat flux over the heated strip 2 pi r dx |
| Cooling.FilmResistance | resa_pro/core/cooling.py:345-347 | a film resistance is positive: 1/h for a positive coefficient, 1e10 otherwise |
| Cooling.GasSide | resa_pro/core/cooling.py:319-324 | the local area ratio is at least 1, and the adiabatic wall temperature uses recovery 0.9 at the Mach number of that ratio (sonic up to 1.001) |
| Cooling.CoolantSide | resa_pro/core/cooling.py:333-342 | the channels are sized at the station radius; the coolant velocity carries the mass flow through the flow area (0 without area); Re is 0 without viscosity; Dh is non-zero |
| Cooling.StationAt | resa_pro/core/cooling.py:316-381 | a station records its point, channel and wall conductivity, no drop for a zero step, the Darcy drop otherwise, coolant warmed by its own heat, and T_coolant < T_wc <= T_wg < T_aw with positive flux when the gas is hotter |
| Cooling.WarmedCoolant | resa_pro/core/cooling.py:369-370 | with m cp > 0 the coolant rises by dQ / (m cp), otherwise it keeps its temperature |
| Cooling.WarmedBalance | resa_pro/core/cooling.py:369-370 | with m cp > 0 the heat taken up is exactly m cp times the temperature rise |
| Cooling.StationWall | resa_pro/core/cooling.py:345-352 | each film drop is the flux times its resistance, and a hotter gas gives a positive flux with T_coolant < T_wc <= T_wg < T_aw |
| Cooling.WallNetworkOrder | resa_pro/core/cooling.py:348-352 | positive film resistances and a non-negative wall order the temperatures through the network |
| Cooling.CoolantBefore | resa_pro/core/cooling.py:309-370 | the coolant reaching a station is the inlet temperature at the start and the previous station's outlet after that |
| Cooling.SumOf | resa_pro/core/cooling.py:362 | a sum of non-negative station values is non-negative |
| Cooling.RunningMax | resa_pro/core/cooling.py:312-313 | a running maximum started from 0 is non-negative |
| Cooling.RunningMaxBounds | resa_pro/core/cooling.py:372-373 | the peak is at least every station's value and is either 0 or one of them |
| Cooling.AppendStation | resa_pro/core/cooling.py:362-373 | a new station adds its value to the sum and raises the running maximum to it |
| Cooling.HeatSumAppend | resa_pro/core/cooling.py:367-368 | a new station adds its heat to the heat load |
| Cooling.HeatSumPrefix | resa_pro/core/cooling.py:367-368 | the heat load over the first k stations depends only on those stations |
| Cooling.StationOfIsStationAt | resa_pro/core/cooling.py:316-381 | on the contour the station model is the station computation |
| Cooling.March | resa_pro/core/cooling.py:316-381 | the march over the first k visited points yields k stations |
| Cooling.MarchStation | resa_pro/core/cooling.py:316-381 | station t is the station model at the t-th visited point, its axial step and the coolant the previous station left |
| Cooling.StationOfWarms | resa_pro/core/cooling.py:364-370 | every station warms the coolant by its own heat pickup over m cp |
| Cooling.SummarisesAppend | resa_pro/core/cooling.py:361-381 | one loop step keeps totals, outlet temperature, peaks and the energy balance in line with the stations |
| Cooling.TotalsAppend | resa_pro/core/cooling.py:361-373 | a further station adds its drop and heat to the sums and raises the peak wall temperature and heat flux to its own |
| Cooling.OutletAppend | resa_pro/core/cooling.py:369-370 | a rise of dq / (m cp) on top of h / (m cp) is a rise of (h + dq) / (m cp); without m cp > 0 the outlet stays at the inlet |
| Cooling.MarchCoolant | resa_pro/core/cooling.py:309-390 | the loop yields the march's stations, the summed drop and heat load, the peaks from 0, and an outlet warmer than the inlet by exactly the heat load over m cp (the inlet when m cp is not positive) |
| Cooling.AnalyzeRegenCooling | resa_pro/core/cooling.py:236-390 | the result is the march in flow order with those totals, peaks and energy balance |
| Cooling.FirstStationAddsNothing | resa_pro/core/cooling.py:355-370 | the first station adds no drop and no heat and leaves the coolant at the inlet temperature |
| Cooling.HeatSumNonnegative | resa_pro/core/cooling.py:365-368 | stations with non-negative flux and radius give a non-negative heat load |
| Cooling.OutletNoColder | resa_pro/core/cooling.py:365-370 | when every station's flux and radius are non-negative, the summarised coolant leaves no colder than it entered |
| Nozzle.RaoAnglesDeg | resa_pro/core/nozzle.py:135-147 | initial angle 21 + 14 (1 - Lf) degrees; exit angle the 3-degree-clamped fall with expansion, +2 below Lf 0.7, -1.5 above Lf 0.85, never below 2 degrees |
| Nozzle.RaoAngles | resa_pro/core/nozzle.py:125-147 | the same two angles converted to radians, the exit angle at least 2 degrees |
| Nozzle.ExitAngleFallsWithExpansion | resa_pro/core/nozzle.py:141 | a larger expansion ratio never steepens the exit angle |
| Nozzle.InitialAngleFallsWithLength | resa_pro/core/nozzle.py:139 | a shorter bell (smaller Lf) starts strictly steeper |
| Nozzle.InitialSteeperThanExit | resa_pro/core/nozzle.py:139-147 | for expansion ratios of at least 1 and Lf up to 1 the initial angle exceeds the exit angle |
| Nozzle.BoundaryLayerLoss | resa_pro/core/nozzle.py:272-295 | the loss always lies in [0.001, 0.05]; it is the raw correlation inside that band and the nearer bound outside it |
| Nozzle.LossFallsWithPressure | resa_pro/core/nozzle.py:293-295 | for a given nozzle a higher chamber pressure never raises the loss |
| Nozzle.ComputeNozzleEfficiency | resa_pro/core/nozzle.py:298-328 | total efficiency = divergence efficiency (1 - boundary-layer loss), and CF and Isp are scaled by it |
| Nozzle.EfficiencyReducesPerformance | resa_pro/core/nozzle.py:315-328 | with a divergence efficiency in (0, 1] the total lies in [0.95, 0.999] times it, and positive ideal CF and Isp are strictly reduced but stay positive |
| Nozzle.SummerfieldSeparationPressure | resa_pro/core/nozzle.py:334-342 | p_sep = 0.37 pa, strictly between 0 and pa for positive ambient pressure |
| Nozzle.CheckFlowSeparation | resa_pro/core/nozzle.py:345-367 | separated exactly when pe < p_sep; margin (pe - p_sep)/pa for positive pa and +inf otherwise |
| Nozzle.SeparatedIffNegativeMargin | resa_pro/core/nozzle.py:358-366 | under positive ambient pressure the flow separates exactly when the margin is negative |
| Nozzle.SeparationMonotoneInExitPressure | resa_pro/core/nozzle.py:358-359 | raising the exit pressure never causes separation |
| CycleSolver.DefaultDefinition | resa_pro/cycle/solver.py:64-100 | the defaults: 20 bar, 2000 N, O/F 4, c* 1550, injector drop 15% of Pc, 0.5 bar per feed line and valve |
| CycleSolver.FlowRates | resa_pro/cycle/solver.py:128-150 | the total flow times CF c* is the thrust, and it splits into oxidizer and fuel in the mixture ratio |
| CycleSolver.DeliveredIsp | resa_pro/cycle/solver.py:236 | Isp mdot g0 == F |
| CycleSolver.RequiredTankPressure | resa_pro/cycle/solver.py:164-178 | the tank covers exactly Pc, the injector drop, the feed-line drop and the valve drop |
| CycleSolver.FeedLineOutlet | resa_pro/cycle/solver.py:196-202 | only the pressure changes across the fixed-drop feed line, by its drop |
| CycleSolver.FeedLineSummary | resa_pro/cycle/solver.py:203-225 | the feed-line entry names the line, type "pipe", and its drop in bar |
| CycleSolver.PressureFedReachesInjector | resa_pro/cycle/solver.py:182-229 | after feed line and valve each side reaches the injector at Pc plus the injector drop, with its flow and temperature |
| CycleSolver.SolvePressureFed | resa_pro/cycle/solver.py:156-252 | no pump or turbine power, tanks at the required pressures, Isp = F/(mdot g0), and the four summaries in path order |
| CycleSolver.PressureFedTankAbovePumpFed | resa_pro/cycle/solver.py:167-172 | a pressure-fed tank is above the 3 bar pump-fed tank whenever its path needs more; the defaults need 24 bar |
| CycleSolver.BrentRoot | resa_pro/cycle/solver.py:330 | a root position in [0, 1] lies inside the bracket, at its ends for 0 and 1 |
| CycleSolver.GGPumps | resa_pro/cycle/solver.py:271-303 | both pumps run from the 3 bar tanks to the same discharge pressure, with the same pressure rise |
| CycleSolver.GGPumpPower | resa_pro/cycle/solver.py:305 | the pump power is the sum of both pumps' shaft powers |
| CycleSolver.GGTurbine | resa_pro/cycle/solver.py:313-325 | the turbine takes the gas-generator flow at 0.9 Pc and exhausts it at 1 bar |
| CycleSolver.GGResidual | resa_pro/cycle/solver.py:311-326 | residual plus pump power is the turbine's absolute power |
| CycleSolver.GGFallbackFlow | resa_pro/cycle/solver.py:331-339 | with positive specific work the fallback flow times it is the pump power; otherwise 0.01 kg/s |
| CycleSolver.GGBalancedFlow | resa_pro/cycle/solver.py:328-339 | the fallback when the residual does not change sign over [1e-4, 0.2 mdot], otherwise the supplied root, which lies in that bracket |
| CycleSolver.GGPowerResidual | resa_pro/cycle/solver.py:311-326 | the closure leaves the turbine holding its result at that flow and returns the residual |
| CycleSolver.GGSummary | resa_pro/cycle/solver.py:368 | the gas-generator entry records the balanced flow |
| CycleSolver.GGBalance | resa_pro/cycle/solver.py:328-339 | the search yields the balanced flow |
| CycleSolver.SolveGasGenerator | resa_pro/cycle/solver.py:258-385 | 3 bar tanks, pump power of both pumps, turbine power at the balanced flow, their difference as the balance error, Isp = F/(mdot g0), four summaries |
| CycleSolver.FallbackBalancesPumps | resa_pro/cycle/solver.py:335-339 | with positive specific work and pump power the fallback flow is positive and its ideal turbine work equals the pump power |
| CycleSolver.ExpanderBracket | resa_pro/cycle/solver.py:492-493 | the bracket starts at Pc + injector drop + jacket drop + 1 bar and spans 50 bar |
| CycleSolver.ExpanderOxPump | resa_pro/cycle/solver.py:432-438 | the oxidizer pump runs from its tank to Pc + injector drop + valve drop |
| CycleSolver.ExpanderFuelPump | resa_pro/cycle/solver.py:441-446 | the fuel pump runs from its tank to the trial discharge pressure |
| CycleSolver.ExpanderColdInlet | resa_pro/cycle/solver.py:451-457 | the jacket inlet is at the discharge pressure, carries the fuel flow and is warmed from 293 K by the fuel pump power over mdot 2500 |
| CycleSolver.ExpanderHotInlet | resa_pro/cycle/solver.py:459-465 | the hot side is at 0.4 Tc and Pc, carrying the total flow |
| CycleSolver.ExpanderJacket | resa_pro/cycle/solver.py:466-467 | the jacket's cold outlet is the discharge pressure less the cold-side drop, no hotter than the larger inlet temperature |
| CycleSolver.ExpanderTurbineInlet | resa_pro/cycle/solver.py:473-480 | the turbine inlet keeps the heated fuel's pressure, temperature and enthalpy, with the fuel flow |
| CycleSolver.ExpanderTurbine | resa_pro/cycle/solver.py:481-486 | the turbine expands the heated fuel to Pc plus the injector drop |
| CycleSolver.ExpanderResidual | resa_pro/cycle/solver.py:425-488 | residual plus total pump power is the turbine's absolute power |
| CycleSolver.BracketKeepsTurbineHead | resa_pro/cycle/solver.py:492 | at every bracket pressure the jacket outlet is at least 1 bar above the turbine outlet, so the turbine can run |
| CycleSolver.ExpanderBalancePressure | resa_pro/cycle/solver.py:490-499 | a pressure inside the bracket: the midpoint when the residual does not change sign, otherwise the supplied root |
| CycleSolver.ExpanderPowerResidual | resa_pro/cycle/solver.py:425-488 | the closure leaves pumps, jacket and turbine holding their results at the trial pressure and returns the residual |
| CycleSolver.ExpanderBalance | resa_pro/cycle/solver.py:490-499 | the search yields the balanced discharge pressure |
| CycleSolver.SolveExpander | resa_pro/cycle/solver.py:391-531 | 3 bar tanks, pump and turbine power of the final evaluation at the balanced pressure, their difference as the balance error, Isp = F/(mdot g0), four summaries |
| CycleSolver.ExpanderReport | resa_pro/cycle/solver.py:503-531 | from the components' final results: pump power is the sum of both pumps' shaft power, turbine power is the turbine's absolute shaft power, the balance error is their difference, Isp = F/(mdot g0), 3 bar tanks, and the four summaries in flow order |
| CycleSolver.ExpanderStreams | resa_pro/cycle/solver.py:466-486 | in the bracket the turbine inlet is the jacket outlet pressure, at least 1 bar above its outlet, and no hotter than the hotter jacket inlet |
| CycleSolver.SolveCycle | resa_pro/cycle/solver.py:103-125 | each cycle type goes to its own solver, reporting its name, the flow and Isp = F/(mdot g0); any other value raises ValueError |
| Optimizer.NewDesignVariable | resa_pro/optimization/optimizer.py:39-47 | a given initial value is kept; a missing one is the midpoint of the bounds, so within them when lower <= upper |
| Optimizer.Normalise | resa_pro/optimization/optimizer.py:53-56 | with a positive span t span == value - lower, in [0, 1] for values within the bounds; 0 for a non-positive span |
| Optimizer.Denormalise | resa_pro/optimization/optimizer.py:58-60 | x - lower == t span, within the bounds for t in [0, 1] |
| Optimizer.NormaliseEnds | resa_pro/optimization/optimizer.py:53-56 | the lower bound maps to 0 and the upper to 1 |
| Optimizer.DenormaliseNormalise | resa_pro/optimization/optimizer.py:53-60 | with a positive span denormalising a normalised value gives it back |
| Optimizer.NormaliseDenormalise | resa_pro/optimization/optimizer.py:53-60 | with a positive span normalising a denormalised value gives it back |
| Optimizer.Sign | resa_pro/optimization/optimizer.py:81-84 | +1 exactly for "minimize", -1 for any other direction |
| Optimizer.Violation | resa_pro/optimization/optimizer.py:106-120 | the violation is non-negative and zero exactly when the constraint is satisfied; below the lower bound it is the shortfall, above the upper the excess |
| Optimizer.ViolationGrowsBelowLower | resa_pro/optimization/optimizer.py:116-117 | further below the lower bound the violation is strictly larger |
| Optimizer.AssignKeys | resa_pro/optimization/optimizer.py:200 | the dict built from keys and values has exactly those keys |
| Optimizer.AssignLast | resa_pro/optimization/optimizer.py:200 | a key's value is the one paired with its last occurrence |
| Optimizer.ArrayToDictMeaning | resa_pro/optimization/optimizer.py:198-200 | the dict holds exactly the variable names, each mapped to its coordinate when names are distinct |
| Optimizer.DictToArray | resa_pro/optimization/optimizer.py:202-204 | the array has one entry per variable |
| Optimizer.DictArrayRoundTrip | resa_pro/optimization/optimizer.py:198-204 | with distinct names, array to dict to array is the identity |
| Optimizer.ObjectiveTerm | resa_pro/optimization/optimizer.py:216-222 | without a target the weighted value, negated for maximisation; with one the weighted distance, non-negative for a non-negative weight and zero on target |
| Optimizer.MaximizeNegatedIsMinimize | resa_pro/optimization/optimizer.py:219-222 | maximising a value costs the same as minimising its negation |
| Optimizer.PenaltyZeroIffNoViolation | resa_pro/optimization/optimizer.py:228-234 | the penalty is non-negative and zero exactly when no constraint is violated |
| Optimizer.NoViolationIffAllSatisfied | resa_pro/optimization/optimizer.py:106-120 | no violation exactly when every constraint is satisfied by its result value |
| Optimizer.ScoreObjectives | resa_pro/optimization/optimizer.py:214-222 | the objective loop's cost is the sum of the objective terms and its values the results by objective name |
| Optimizer.CheckConstraints | resa_pro/optimization/optimizer.py:225-234 | the constraint loop's penalty is 1e6 times the summed violations, feasible exactly when nothing is violated, values by constraint name |
| Optimizer.EvaluateMeaning | resa_pro/optimization/optimizer.py:206-244 | the point records the variables and the raw result, names every objective and constraint, is feasible exactly when every constraint holds, and only an infeasible point pays a (positive) penalty |
| Optimizer.Feasible | resa_pro/optimization/optimizer.py:314 | exactly the feasible points are kept |
| Optimizer.Recosts | resa_pro/optimization/optimizer.py:318-321 | one re-evaluated cost per feasible point |
| Optimizer.FirstMinimumStep | resa_pro/optimization/optimizer.py:316-324 | a strictly smaller cost takes over the running best, an equal or larger one leaves the first minimum in place |
| Optimizer.FirstMinimumUnique | resa_pro/optimization/optimizer.py:316-325 | the first minimum is unique, so the selected point is determined |
| Optimizer.LhsValue | resa_pro/optimization/optimizer.py:423 | t n == perm + u, in [0, 1) for a permutation entry and a draw in [0, 1) |
| Optimizer.LhsStratum | resa_pro/optimization/optimizer.py:419-423 | sample value (p + u)/n falls in stratum p, [p/n, (p+1)/n) |
| Optimizer.LatinColumn | resa_pro/optimization/optimizer.py:421-423 | within a column no two samples share a stratum |
| Optimizer.LhsPoint | resa_pro/optimization/optimizer.py:427-430 | a sample has one coordinate per variable |
| Optimizer.LhsPointWithinBounds | resa_pro/optimization/optimizer.py:421-430 | every sampled variable lies within its bounds |
| Optimizer.DesignOptimizer.constructor | resa_pro/optimization/optimizer.py:168-171 | a new optimiser has no variables, objectives or constraints |
| Optimizer.DesignOptimizer.AddVariable | resa_pro/optimization/optimizer.py:173-174 | appends the variable and changes nothing else |
| Optimizer.DesignOptimizer.AddObjective | resa_pro/optimization/optimizer.py:176-177 | appends the objective and changes nothing else |
| Optimizer.DesignOptimizer.AddConstraint | resa_pro/optimization/optimizer.py:179-180 | appends the constraint and changes nothing else |
| Optimizer.DesignOptimizer.NVariables | resa_pro/optimization/optimizer.py:194-196 | the number of registered design variables |
| Optimizer.DesignOptimizer.EvaluatePoint | resa_pro/optimization/optimizer.py:206-244 | the two loops compute the cost and point of the evaluation |
| Optimizer.DesignOptimizer.Optimize | resa_pro/optimization/optimizer.py:246-337 | ValueError without variables, then without objectives; otherwise every trial recorded in order, the search's flag and message, and the best point by the selection rule |
| Optimizer.DesignOptimizer.EvaluateTrials | resa_pro/optimization/optimizer.py:277-280 | every trial is evaluated and its point recorded, in order |
| Optimizer.DesignOptimizer.SelectBest | resa_pro/optimization/optimizer.py:313-329 | the first feasible point of least re-evaluated cost; the last point when none is feasible; none when nothing was evaluated |
| Optimizer.DesignOptimizer.DoeLatinHypercube | resa_pro/optimization/optimizer.py:397-434 | one point per sample, each the evaluation of that sample's denormalised stratified vector |
| Optimizer.DesignOptimizer.FillLhs | resa_pro/optimization/optimizer.py:420-423 | entry (i, j) of the filled matrix is sample i's stratified value in column j |
| Optimizer.DesignOptimizer.EvaluateRows | resa_pro/optimization/optimizer.py:425-434 | one point per matrix row, each the evaluation of that row's denormalised vector, in order |
| PluginRegistry.Recorded | resa_pro/plugins/manager.py:232-236 | a returned dict is kept; a raised exception becomes a dict with the single key "error" holding its message |
| PluginRegistry.SummaryRow | resa_pro/plugins/manager.py:242-248 | a summary row has exactly name, version, description, author and enabled, taken from the entry |
| PluginRegistry.Without | resa_pro/plugins/manager.py:178 | deleting a key keeps every other key, in order and without duplicates, and leaves an order without that key unchanged |
| PluginRegistry.WithoutAppended | resa_pro/plugins/manager.py:178 | deleting the key just appended restores the order |
| PluginRegistry.PluginManager.constructor | resa_pro/plugins/manager.py:51-52 | a new manager has an empty registry |
| PluginRegistry.PluginManager.Register | resa_pro/plugins/manager.py:54-82 | TypeError for a non-Plugin argument and ValueError for a taken name, both leaving the registry unchanged; otherwise one enabled entry appended under the instance's name |
| PluginRegistry.PluginManager.Unregister | resa_pro/plugins/manager.py:167-179 | KeyError for an unknown name with nothing changed; otherwise exactly that entry removed, the rest in order |
| PluginRegistry.PluginManager.GetInfo | resa_pro/plugins/manager.py:252-255 | KeyError exactly for an unregistered name, otherwise the entry filed under that name |
| PluginRegistry.PluginManager.Enable | resa_pro/plugins/manager.py:181-183 | only that entry's flag is set; KeyError for an unknown name with nothing changed |
| PluginRegistry.PluginManager.Disable | resa_pro/plugins/manager.py:185-187 | only that entry's flag is cleared and it stays registered; KeyError for an unknown name |
| PluginRegistry.PluginManager.ListPlugins | resa_pro/plugins/manager.py:189-191 | the names are the registration order itself: every registered name exactly once |
| PluginRegistry.PluginManager.Run | resa_pro/plugins/manager.py:197-218 | KeyError exactly for an unknown name, RuntimeError for a disabled or instance-less entry, otherwise what the plugin's calculate does on the state |
| PluginRegistry.PluginManager.RunAll | resa_pro/plugins/manager.py:220-237 | a result for exactly the runnable plugins, each what run gives with a raised error recorded under "error"; every other registered plugin is one run refuses with RuntimeError |
| PluginRegistry.PluginManager.Summary | resa_pro/plugins/manager.py:239-250 | one row per registered plugin, in registration order, named as list_plugins lists them |
| PluginRegistry.RegisterUnregisterRestores | resa_pro/plugins/manager.py:167-179 | registering a new plugin and unregistering it again leaves registry and order as they were |
| Validation.OfSeverity | resa_pro/utils/validation.py:43-49 | filtering by severity never lengthens the list |
| Validation.OfSeverityMembers | resa_pro/utils/validation.py:43-49 | the filtered list holds exactly the messages of that severity |
| Validation.OfSeverityAppend | resa_pro/utils/validation.py:43-49 | filtering a concatenation concatenates the filtered parts |
| Validation.OfSeverityEmpty | resa_pro/utils/validation.py:35-49 | the filtered list is empty exactly when no message has that severity, so `errors` and `is_valid`, `warnings` and `has_warnings` agree |
| Validation.HasAppend | resa_pro/utils/validation.py:65-66 | a concatenation has a severity exactly when one of its parts does |
| Validation.ValidationResult.constructor | resa_pro/utils/validation.py:33 | a new result has no messages |
| Validation.ValidationResult.IsValid | resa_pro/utils/validation.py:35-37 | valid exactly when no message is an error, that is, when the error list is empty |
| Validation.ValidationResult.HasWarnings | resa_pro/utils/validation.py:39-41 | warnings exactly when some message is a warning, that is, when the warning list is non-empty |
| Validation.ValidationResult.Errors | resa_pro/utils/validation.py:43-45 | exactly the error messages of the result, no more than there are messages |
| Validation.ValidationResult.Warnings | resa_pro/utils/validation.py:47-49 | exactly the warning messages of the result, no more than there are messages |
| Validation.ValidationResult.Add | resa_pro/utils/validation.py:51-54 | appends one message with the given severity, parameter and text |
| Validation.ValidationResult.Error | resa_pro/utils/validation.py:56-57 | appends one error message |
| Validation.ValidationResult.Warning | resa_pro/utils/validation.py:59-60 | appends one warning message |
| Validation.ValidationResult.Info | resa_pro/utils/validation.py:62-63 | appends one informational message |
| Validation.ValidationResult.Merge | resa_pro/utils/validation.py:65-66 | appends the other result's messages in order |
| Validation.MergeValidity | resa_pro/utils/validation.py:35-66 | a merged result is valid exactly when both were, and warns exactly when either did |
| Validation.PositiveCheck | resa_pro/utils/validation.py:72-75 | one error about the parameter exactly when the value is not positive, nothing otherwise |
| Validation.RangeCheck | resa_pro/utils/validation.py:78-88 | one message of the given severity exactly when the value is outside [low, high], nothing otherwise |
| Validation.ValidatePositive | resa_pro/utils/validation.py:72-75 | appends the positivity check's messages to the result |
| Validation.ValidateRange | resa_pro/utils/validation.py:78-88 | appends the range check's messages to the result |
| Validation.Warn | resa_pro/utils/validation.py:101-105 | a conditional warning: a warning present exactly when the condition holds, no other severity |
| Validation.Err | resa_pro/utils/validation.py:119-120 | a conditional error: an error present exactly when the condition holds, no other severity |
| Validation.PressureChecks | resa_pro/utils/validation.py:98-105 | an error exactly for a non-positive chamber pressure, a warning exactly above 30 MPa, nothing when the key is absent |
| Validation.ThrustChecks | resa_pro/utils/validation.py:107-109 | an error exactly for a non-positive thrust, never a warning |
| Validation.ThroatChecks | resa_pro/utils/validation.py:111-115 | an error exactly for a non-positive throat diameter, a warning exactly below 1 mm |
| Validation.ContractionChecks | resa_pro/utils/validation.py:117-122 | an error exactly below 1, a warning exactly above 10 |
| Validation.LStarChecks | resa_pro/utils/validation.py:124-127 | an error exactly for a non-positive L*, a warning exactly outside [0.2, 5] m |
| Validation.ExpansionChecks | resa_pro/utils/validation.py:129-134 | an error exactly below 1, a warning exactly above 300 |
| Validation.ChamberSeverities | resa_pro/utils/validation.py:96-136 | a design's messages have a severity exactly when one of the six sections produced it |
| Validation.ChamberValidIff | resa_pro/utils/validation.py:91-136 | a design is valid exactly when it breaks none of the error rules |
| Validation.ChamberWarnsIff | resa_pro/utils/validation.py:91-136 | a design warns exactly when it breaks one of the warning rules |
| Validation.CheckPressure | resa_pro/utils/validation.py:98-105 | appends the pressure section's messages |
| Validation.CheckThrust | resa_pro/utils/validation.py:107-109 | appends the thrust section's messages |
| Validation.CheckThroat | resa_pro/utils/validation.py:111-115 | appends the throat section's messages |
| Validation.CheckContraction | resa_pro/utils/validation.py:117-122 | appends the contraction section's messages |
| Validation.CheckLStar | resa_pro/utils/validation.py:124-127 | appends the L* section's messages |
| Validation.CheckExpansion | resa_pro/utils/validation.py:129-134 | appends the expansion section's messages |
| Validation.ValidateChamberDesign | resa_pro/utils/validation.py:91-136 | a fresh result holding the six sections' messages in order |
| Validation.ReasonableDesignIsValid | tests/test_utils.py:93-103 | the 2 MPa, 2 kN design of the tests is valid and draws no warning |
| Validation.SingleKeyCases | tests/test_utils.py:105-118 | -1 MPa alone is invalid, 35 MPa alone warns, contraction 0.5 alone is invalid |
| Geometry.Ring | resa_pro/geometry3d/engine.py:63-75 | one ring has n vertices, vertex j at the station's x and radius r turned by angle j 2 pi / n |
| Geometry.RingsLength | resa_pro/geometry3d/engine.py:67 | the vertex grid has n_axial n_circ vertices |
| Geometry.RingsIndex | resa_pro/geometry3d/engine.py:68-75 | vertex i n_circ + j exists and is the ring vertex of station i at angle j, with x = contour_x[i] |
| Geometry.QuadFaces | resa_pro/geometry3d/engine.py:81-90 | each quad is split into two triangles |
| Geometry.QuadRowIndex | resa_pro/geometry3d/engine.py:80-90 | a band has two faces per column, the quad's triangles at 2j and 2j + 1 |
| Geometry.QuadRowLength | resa_pro/geometry3d/engine.py:80-90 | a band of c columns has 2c faces |
| Geometry.SideFacesLength | resa_pro/geometry3d/engine.py:79-90 | the side wall has 2 n_circ faces per band |
| Geometry.SideFacesIndex | resa_pro/geometry3d/engine.py:79-90 | faces 2(i n + j) and 2(i n + j) + 1 are (v00, v10, v01) and (v01, v10, v11) with the column wrapping round |
| Geometry.WithinBoundsAppend | resa_pro/geometry3d/engine.py:78-115 | appending well-indexed faces keeps every face indexing existing vertices |
| Geometry.QuadRowWithin | resa_pro/geometry3d/engine.py:83-86 | band i only uses the vertices of rings i and i + 1 |
| Geometry.WithinBoundsMono | resa_pro/geometry3d/engine.py:96-109 | adding vertices keeps faces well-indexed |
| Geometry.SideFacesWithin | resa_pro/geometry3d/engine.py:79-90 | the side wall of r bands only uses the first r + 1 rings |
| Geometry.FanShape | resa_pro/geometry3d/engine.py:99-115 | each cap has n_circ triangles: (centre, j + 1, j) at the front and (centre, ring + j, ring + j + 1) at the rear, wrapping round |
| Geometry.FansWithin | resa_pro/geometry3d/engine.py:99-115 | the fans only use their centre and their ring |
| Geometry.FanLength | resa_pro/geometry3d/engine.py:99-115 | each fan has one triangle per column |
| Geometry.RevolutionCounts | resa_pro/geometry3d/engine.py:61-115 | n_axial n_circ vertices plus one per closed cap; 2 n_circ faces per band plus n_circ per closed cap |
| Geometry.RevolutionWellFormed | resa_pro/geometry3d/engine.py:61-117 | every face of the mesh indexes an existing vertex |
| Geometry.VertexGrid | resa_pro/geometry3d/engine.py:61-75 | the nested loops fill a fresh array with exactly the vertex grid |
| Geometry.WriteRing | resa_pro/geometry3d/engine.py:71-75 | the inner loop writes exactly one station's ring after the entries already written, leaving those unchanged |
| Geometry.SideTriangles | resa_pro/geometry3d/engine.py:77-90 | the nested loops append exactly the side-wall faces |
| Geometry.AppendFrontFan | resa_pro/geometry3d/engine.py:99-103 | the front cap's loop appends exactly the n fan triangles [centre, j_next, j] after the faces already there |
| Geometry.AppendRearFan | resa_pro/geometry3d/engine.py:111-115 | the rear cap's loop appends exactly the n fan triangles [centre, ring + j, ring + j_next] after the faces already there |
| Geometry.RevolutionHasFacesIff | resa_pro/geometry3d/engine.py:78-127 | the mesh has a face exactly when there is a column and either a side band or a closed cap, so the face list `_compute_face_normals` indexes is non-empty exactly then |
| Geometry.RevolveContour | resa_pro/geometry3d/engine.py:41-122 | the mesh is the revolution: grid, side wall, then the front and rear caps where the end radius exceeds 1e-10; it has at least one face, which `_compute_face_normals` needs |
| Geometry.ShiftTail | resa_pro/geometry3d/engine.py:165-171 | all but the first point, each offset |
| Geometry.CombineContours | resa_pro/geometry3d/engine.py:143-173 | the chamber points unchanged, followed by the nozzle points after the first, x shifted by the last chamber x and y unshifted |
| Geometry.CombinedMonotone | resa_pro/geometry3d/engine.py:165-173 | non-decreasing chamber and nozzle x, the nozzle starting at or after 0, give a non-decreasing combined x |

## Left out

- SciPy `brentq` in the gas-generator and expander solvers and in `mach_from_area_ratio`: these searches are not modelled as iterations. The root is an input, given as a position t in [0, 1] of the checked bracket. In the two cycle solvers the model computes the residual at both bracket ends and falls back where the source does. In `mach_from_area_ratio` the residual involves the area-Mach relation, whose real exponent is outside the model, so its values at the two bracket ends are inputs; the model raises ValueError when they have the same strict sign, as brentq does.
- SciPy `minimize` and `differential_evolution` in `DesignOptimizer.optimize`: the trial vectors the search evaluates are an input. The `method`, `tol`, `max_iter` and `seed` options only steer that search, so they have no counterpart here.
- NumPy random draws in `doe_latin_hypercube`: the permutations and uniform draws are inputs.
- `DesignOptimizer.sensitivity_analysis`: its finite differences are not modelled.
- Transcendental functions are parameters, each with only the facts the modelled code uses. These are fractional powers, `sqrt`, `log10`, `cos`/`sin`, the isentropic relations, the Bartz and Dittus-Boelter correlations and `_mach_from_area_ratio_approx`.
- IEEE-754 rounding: all quantities are exact, unbounded reals.
- NumPy arrays: they are sequences here. `vstack` and concatenation become sequence concatenation.
- `compute_heat_flux_distribution` and `bartz_heat_transfer_coefficient` in resa_pro/core/thermal.py: these are transcendental correlations, so they are not part of this model.
- `coolant_htc_sieder_tate` in resa_pro/core/cooling.py: this is a transcendental correlation. The coolant march uses Dittus-Boelter, which is a parameter.
- resa_pro/core/chamber.py, resa_pro/core/moc.py and the conical and parabolic contour generators of resa_pro/core/nozzle.py: these are not part of this model. Contours enter only as the sequences of points and fields that the modelled code reads.
- resa_pro/plugins/examples/mass_estimator.py: this is not part of this model.
- `PluginManager.discover` and `discover_entry_points`: these are filesystem and importlib scans, so they are not modelled.
- PluginRegistry.PluginManager.Enable: `PluginInfo` is a shared mutable object in the source, and the model stores a copy in the registry. Aliasing of an info object that a caller still holds is not modelled.
- `export_stl_binary`, `export_stl_ascii` and `_compute_face_normals`: these are file output and floating-point norms, so they are not modelled.
- Validation.ValidationResult.Add: messages keep their severity, field and fixed wording. The optional `value` and `limit` fields, and the numbers the source formats into the texts, are not modelled.
- Nozzle.ComputeNozzleEfficiency: the `two_phase_loss` field of the result is always zero in the source, so the model does not include it.
- Thermal.RadiativeEquilibriumTemperature: it requires a non-negative flux ratio. For a negative ratio, Python's `** 0.25` returns a complex number rather than raising, and the model has no counterpart for that value.
- Python default arguments: every modelled call passes its arguments explicitly, as the cycle solver does. The defaults are not modelled: pump efficiency 0.65; turbine efficiency 0.60, gamma 1.3 and cp 1500; valve dp 5e4; the heat-exchanger effectiveness 0.80, drops 5e4/1e5 and cps 1500/2500; the pipe geometry defaults and mu 1e-3; `validate_range` severity ERROR.
- Thermo.Lower: it lower-cases ASCII letters only. Python's `str.lower` also folds non-ASCII letters.
- Cooling.AnalyzeRegenCooling: it requires `WellFormed`. The source divides by zero or indexes past the radii where a `WellFormed` part fails, so those parts are needed. The source itself needs gamma != 1: cooling.py:327-330 calls `bartz_heat_transfer_coefficient` without `cp_ref`, and thermal.py:71 then divides by gamma - 1. The model admits gamma == 1 because the Bartz coefficient is a parameter here. `WellFormed` also requires `gamma >= 1` and a non-negative wall thickness when the wall conductivity is positive; the source does not demand those two.
- Cooling.StationOf: positions off the contour map to a fixed placeholder station. The march never visits such a position.
- CycleSolver.ExpanderPowerResidual: the source's early return when the heat exchanger has no cold outlet (resa_pro/cycle/solver.py:469-470) cannot happen, because a cold inlet is always passed. The model proves that the outlet exists and omits that return.
- Python crashes are preconditions. Examples:
  - a valve with Cv 0;
  - a turbine pressure ratio of 0;
  - a contour with fewer radii than axial points;
  - closing the ends of an empty contour;
  - a revolved mesh without faces (no columns, or a single station without a cap), on which `_compute_face_normals` raises IndexError;
  - joining an empty chamber contour;
  - zero divisors in the sizing formulas.
- Not modelled at all:
  - Monte Carlo uncertainty quantification (resa_pro/optimization/uq.py);
  - report generation;
  - the user interface and the command line;
  - configuration files, the fluid and material property back-ends, unit conversion and interpolation;
  - logging.
