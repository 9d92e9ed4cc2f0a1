/** Heat exchanger component: effectiveness-NTU heat transfer between a hot
    and a cold stream with a pinch clamp
    (resa_pro/cycle/components/heat_exchanger.py). */
module HeatExchangerModel {
  import opened Common
  import opened FluidStates
  import opened RealArith

  datatype HeatExchangerResult = HeatExchangerResult(
    hotInlet: FluidState,
    hotOutlet: FluidState,
    coldInlet: FluidState,
    coldOutlet: FluidState,
    heatTransfer: real,
    effectiveness: real,
    pressureDropHot: real,
    pressureDropCold: real)

  /** Heat flow Q and the two temperature changes, after the pinch check. */
  datatype Exchange = Exchange(q: real, dtHot: real, dtCold: real)

  /** Temperature change Q / C of a stream with capacitance rate C, or zero
      when C is not positive. */
  function TemperatureChange(q: real, c: real): (dt: real)
    ensures c > 0.0 ==> dt * c == q
    ensures c <= 0.0 ==> dt == 0.0
  {
    if c > 0.0 then q / c else 0.0
  }

  /** The largest heat flow the streams allow: C_min (T_hot,in - T_cold,in). */
  function MaxHeatTransfer(cHot: real, cCold: real, tHotIn: real, tColdIn: real): real
  {
    Min(cHot, cCold) * (tHotIn - tColdIn)
  }

  /** Whether the pinch clamp fires: the unclamped cold outlet overshoots the
      hot inlet while the cold stream is heated. */
  predicate PinchFires(tHotIn: real, tColdIn: real, dtCold: real)
  {
    tColdIn + dtCold > tHotIn && dtCold > 0.0
  }

  /** The effectiveness-NTU exchange with the pinch clamp: Q = eps max(Q_max, 0)
      unless the cold outlet would overshoot the hot inlet, in which case the
      cold outlet is set to the hot inlet temperature and Q recomputed. */
  function ExchangeHeat(effectiveness: real, cHot: real, cCold: real, tHotIn: real, tColdIn: real): (e: Exchange)
    ensures var q0 := effectiveness * Max(MaxHeatTransfer(cHot, cCold, tHotIn, tColdIn), 0.0);
            !PinchFires(tHotIn, tColdIn, TemperatureChange(q0, cCold)) ==>
              e.q == q0 && e.dtCold == TemperatureChange(q0, cCold)
    ensures var q0 := effectiveness * Max(MaxHeatTransfer(cHot, cCold, tHotIn, tColdIn), 0.0);
            PinchFires(tHotIn, tColdIn, TemperatureChange(q0, cCold)) ==>
              e.dtCold == Max(tHotIn - tColdIn, 0.0) && tColdIn + e.dtCold == Max(tHotIn, tColdIn)
    ensures e.dtHot == TemperatureChange(e.q, cHot)
    ensures e.dtCold == TemperatureChange(e.q, cCold)
    ensures tColdIn + e.dtCold <= Max(tHotIn, tColdIn)
  {
    var q0 := effectiveness * Max(MaxHeatTransfer(cHot, cCold, tHotIn, tColdIn), 0.0);
    var dtCold0 := TemperatureChange(q0, cCold);
    if PinchFires(tHotIn, tColdIn, dtCold0) then
      // dtCold0 > 0 forces cCold > 0 here
      var dtCold := Max(tHotIn - tColdIn, 0.0);
      var q := if cCold > 0.0 then dtCold * cCold else 0.0;
      assert TemperatureChange(q, cCold) == dtCold;
      Exchange(q, TemperatureChange(q, cHot), dtCold)
    else
      Exchange(q0, TemperatureChange(q0, cHot), dtCold0)
  }

  /** Enthalpy after giving up heat q at mass flow m (zero for m <= 0). */
  function EnthalpyAfterLoss(h: real, q: real, m: real): (r: real)
    ensures m > 0.0 ==> (h - r) * m == q
    ensures m <= 0.0 ==> r == 0.0
  {
    if m > 0.0 then h - q / m else 0.0
  }

  /** Enthalpy after receiving heat q at mass flow m (zero for m <= 0). */
  function EnthalpyAfterGain(h: real, q: real, m: real): (r: real)
    ensures m > 0.0 ==> (r - h) * m == q
    ensures m <= 0.0 ==> r == 0.0
  {
    if m > 0.0 then h + q / m else 0.0
  }

  /** The heat-exchanger model on a hot inlet and a cold inlet. */
  function HeatExchangerSolve(hot: FluidState, cold: FluidState, cpHot: real, cpCold: real,
                              effectiveness: real, dpHot: real, dpCold: real): (r: HeatExchangerResult)
    ensures var e := ExchangeHeat(effectiveness, hot.massFlow * cpHot, cold.massFlow * cpCold,
                                  hot.temperature, cold.temperature);
            r.heatTransfer == e.q && r.hotOutlet.temperature == hot.temperature - e.dtHot
            && r.coldOutlet.temperature == cold.temperature + e.dtCold
    ensures r.hotInlet == hot && r.coldInlet == cold
    ensures r.effectiveness == effectiveness && r.pressureDropHot == dpHot && r.pressureDropCold == dpCold
    ensures r.hotOutlet.pressure == hot.pressure - dpHot && r.coldOutlet.pressure == cold.pressure - dpCold
    ensures r.hotOutlet.massFlow == hot.massFlow && r.coldOutlet.massFlow == cold.massFlow
    ensures r.hotOutlet.density == hot.density && r.coldOutlet.density == cold.density
    ensures r.hotOutlet.fluidName == hot.fluidName && r.coldOutlet.fluidName == cold.fluidName
    ensures r.hotOutlet.enthalpy == EnthalpyAfterLoss(hot.enthalpy, r.heatTransfer, hot.massFlow)
    ensures r.coldOutlet.enthalpy == EnthalpyAfterGain(cold.enthalpy, r.heatTransfer, cold.massFlow)
    ensures r.coldOutlet.temperature <= Max(hot.temperature, cold.temperature)
  {
    var cHot := hot.massFlow * cpHot;
    var cCold := cold.massFlow * cpCold;
    var e := ExchangeHeat(effectiveness, cHot, cCold, hot.temperature, cold.temperature);
    var hotOut := State(hot.pressure - dpHot, hot.temperature - e.dtHot, hot.massFlow, hot.density,
                        EnthalpyAfterLoss(hot.enthalpy, e.q, hot.massFlow),
                        0.0, hot.fluidName);
    var coldOut := State(cold.pressure - dpCold, cold.temperature + e.dtCold, cold.massFlow, cold.density,
                         EnthalpyAfterGain(cold.enthalpy, e.q, cold.massFlow),
                         0.0, cold.fluidName);
    HeatExchangerResult(hot, hotOut, cold, coldOut, e.q, effectiveness, dpHot, dpCold)
  }

  /** A heat-exchanger object: effectiveness, side pressure drops and the
      latest result. */
  class HeatExchanger {
    const name: string
    const effectiveness: real
    const dpHot: real
    const dpCold: real
    var result: Option<HeatExchangerResult>

    constructor (name: string, effectiveness: real, dpHot: real, dpCold: real)
      ensures this.name == name && this.effectiveness == effectiveness
      ensures this.dpHot == dpHot && this.dpCold == dpCold
      ensures result == None && ColdOutlet() == None
    {
      this.name := name;
      this.effectiveness := effectiveness;
      this.dpHot := dpHot;
      this.dpCold := dpCold;
      result := None;
    }

    /** Runs the model with `inlet` as the hot side; a missing cold inlet is
        replaced by the default (zero-flow) state. Returns the hot outlet and
        makes the cold outlet available through ColdOutlet(). */
    method Compute(inlet: FluidState, coldInlet: Option<FluidState>, cpHot: real, cpCold: real)
      returns (hotOutlet: FluidState)
      modifies this
      ensures var cold := if coldInlet.Some? then coldInlet.value else DefaultState();
              result == Some(HeatExchangerSolve(inlet, cold, cpHot, cpCold, effectiveness, dpHot, dpCold))
      ensures hotOutlet == result.value.hotOutlet
      ensures ColdOutlet() == Some(result.value.coldOutlet)
    {
      var cold := if coldInlet.Some? then coldInlet.value else DefaultState();
      var r := HeatExchangerSolve(inlet, cold, cpHot, cpCold, effectiveness, dpHot, dpCold);
      result := Some(r);
      hotOutlet := r.hotOutlet;
    }

    /** The cold-side outlet of the latest computation, if any. */
    function ColdOutlet(): (o: Option<FluidState>)
      reads this
      ensures o.Some? <==> result.Some?
      ensures o.Some? ==> o == Some(result.value.coldOutlet)
    {
      if result.Some? then Some(result.value.coldOutlet) else None
    }

    /** A heat exchanger draws no shaft power. */
    function Power(): (p: real)
      ensures p == 0.0
    {
      0.0
    }

    /** The base summary, plus heat flow in kW, effectiveness and the two
        pressure drops in bar. */
    function Summary(): (d: Summary)
      reads this
      ensures result.None? ==> d.Keys == {"name", "type", "power_W"}
      ensures result.Some? ==>
                d.Keys == {"name", "type", "power_W", "heat_transfer_kW", "effectiveness", "dp_hot_bar", "dp_cold_bar"}
      ensures d["name"] == Text(name) && d["type"] == Text("heat_exchanger") && d["power_W"] == Num(0.0)
      ensures result.Some? ==> d["heat_transfer_kW"].Num?
                               && d["heat_transfer_kW"].num * 1000.0 == result.value.heatTransfer
      ensures result.Some? ==> d["effectiveness"] == Num(result.value.effectiveness)
      ensures result.Some? ==> d["dp_hot_bar"].Num? && d["dp_hot_bar"].num * 100000.0 == result.value.pressureDropHot
      ensures result.Some? ==> d["dp_cold_bar"].Num? && d["dp_cold_bar"].num * 100000.0 == result.value.pressureDropCold
    {
      var d := BaseSummary(name, "heat_exchanger", Power());
      if result.Some? then
        d["heat_transfer_kW" := Num(result.value.heatTransfer / 1000.0)]
         ["effectiveness" := Num(result.value.effectiveness)]
         ["dp_hot_bar" := Num(result.value.pressureDropHot / 100000.0)]
         ["dp_cold_bar" := Num(result.value.pressureDropCold / 100000.0)]
      else d
    }
  }

  /** Energy balance: with both capacitance rates positive, the hot side
      gives up exactly the heat the cold side receives, whether or not the
      pinch clamp fired. */
  lemma EnergyBalance(effectiveness: real, cHot: real, cCold: real, tHotIn: real, tColdIn: real)
    requires cHot > 0.0 && cCold > 0.0
    ensures var e := ExchangeHeat(effectiveness, cHot, cCold, tHotIn, tColdIn);
            e.dtHot * cHot == e.q && e.dtCold * cCold == e.q
  {
    ChangeTimesRate(ExchangeHeat(effectiveness, cHot, cCold, tHotIn, tColdIn).q, cHot,
                    ExchangeHeat(effectiveness, cHot, cCold, tHotIn, tColdIn).dtHot);
    ChangeTimesRate(ExchangeHeat(effectiveness, cHot, cCold, tHotIn, tColdIn).q, cCold,
                    ExchangeHeat(effectiveness, cHot, cCold, tHotIn, tColdIn).dtCold);
  }

  /** A temperature change times a positive capacitance rate gives back the
      heat flow. */
  lemma ChangeTimesRate(q: real, c: real, dt: real)
    requires c > 0.0 && dt == TemperatureChange(q, c)
    ensures dt * c == q
  {
  }

  /** Pinch clamp: when the unclamped cold outlet overshoots a hot inlet
      that is not colder than the cold inlet, the cold outlet ends exactly at
      the hot inlet temperature. */
  lemma PinchClampsToHotInlet(hot: FluidState, cold: FluidState, cpHot: real, cpCold: real,
                              effectiveness: real, dpHot: real, dpCold: real)
    requires hot.temperature >= cold.temperature
    requires var cCold := cold.massFlow * cpCold;
             var q0 := effectiveness * Max(MaxHeatTransfer(hot.massFlow * cpHot, cCold, hot.temperature, cold.temperature), 0.0);
             PinchFires(hot.temperature, cold.temperature, TemperatureChange(q0, cCold))
    ensures HeatExchangerSolve(hot, cold, cpHot, cpCold, effectiveness, dpHot, dpCold).coldOutlet.temperature
            == hot.temperature
  {
  }

  /** Zero effectiveness transfers nothing: both temperatures are unchanged. */
  lemma ZeroEffectivenessNoTransfer(hot: FluidState, cold: FluidState, cpHot: real, cpCold: real,
                                    dpHot: real, dpCold: real)
    ensures var r := HeatExchangerSolve(hot, cold, cpHot, cpCold, 0.0, dpHot, dpCold);
            r.heatTransfer == 0.0 && r.hotOutlet.temperature == hot.temperature
            && r.coldOutlet.temperature == cold.temperature
  {
  }

  /** A perfect exchanger (effectiveness 1) whose cold stream has the smaller
      capacitance rate heats the cold side by exactly Q_max / C_cold, up to
      the hot inlet temperature, without the clamp firing. */
  lemma PerfectExchangerReachesHotInlet(cHot: real, cCold: real, tHotIn: real, tColdIn: real)
    requires 0.0 < cCold < cHot && tColdIn < tHotIn
    ensures var e := ExchangeHeat(1.0, cHot, cCold, tHotIn, tColdIn);
            e.q == MaxHeatTransfer(cHot, cCold, tHotIn, tColdIn)
            && e.dtCold * cCold == MaxHeatTransfer(cHot, cCold, tHotIn, tColdIn)
            && tColdIn + e.dtCold == tHotIn
  {
    var qMax := MaxHeatTransfer(cHot, cCold, tHotIn, tColdIn);
    PosMulPos(cCold, tHotIn - tColdIn);
    assert TemperatureChange(qMax, cCold) == tHotIn - tColdIn;
  }

  /** The test suite's case: 0.5 kg/s of fuel (cp 2500) at 300 K against
      1 kg/s of hot gas (cp 1500) at 1200 K with effectiveness 1; the cold
      side rises 900 K, to the hot inlet temperature. */
  lemma PerfectExchangerCase()
    ensures ExchangeHeat(1.0, 1.0 * 1500.0, 0.5 * 2500.0, 1200.0, 300.0).dtCold == 900.0
  {
    PerfectExchangerReachesHotInlet(1500.0, 1250.0, 1200.0, 300.0);
  }

  /** Without a cold inlet the default zero-flow state is used, and no heat
      moves as long as the hot capacitance rate is not negative. */
  lemma MissingColdInletNoTransfer(hot: FluidState, cpHot: real, cpCold: real, effectiveness: real,
                                   dpHot: real, dpCold: real)
    requires hot.massFlow * cpHot >= 0.0
    ensures HeatExchangerSolve(hot, DefaultState(), cpHot, cpCold, effectiveness, dpHot, dpCold).heatTransfer == 0.0
  {
    assert DefaultState().massFlow * cpCold == 0.0;
  }
}
