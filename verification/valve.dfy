/** Valve component: an isenthalpic pressure drop, either fixed or from a
    flow coefficient Cv (resa_pro/cycle/components/valve.py). */
module ValveModel {
  import opened Common
  import opened FluidStates
  import opened RealArith

  datatype ValveResult = ValveResult(inlet: FluidState, outlet: FluidState, pressureDrop: real)

  /** Whether the Cv model applies: a coefficient is set and the inlet has a
      positive density. */
  predicate UsesCv(cv: Option<real>, inlet: FluidState)
  {
    cv.Some? && inlet.density > 0.0
  }

  /** The Cv pressure drop (Q_m3h / Cv)^2 * (rho / 1000) * 1e5 with the
      volumetric flow Q = mdot / rho in m^3/h; it equals
      100 * (3600 * mdot / Cv)^2 / rho and is never negative. */
  function CvPressureDrop(massFlow: real, density: real, cv: real): (dp: real)
    requires density > 0.0 && cv != 0.0
    ensures dp >= 0.0
    ensures dp * density == 100.0 * Sq(3600.0 * massFlow / cv)
  {
    var qh := massFlow / density * 3600.0;
    var x := qh / cv;
    var dp := Sq(x) * (density / 1000.0) * 100000.0;
    assert x * density == 3600.0 * massFlow / cv;
    assert Sq(x) * density * density == Sq(3600.0 * massFlow / cv) by {
      assert Sq(x) * density * density == Mul(x * density, x * density);
    }
    assert dp * density == Sq(x) * density * density * 100.0;
    dp
  }

  /** The valve model: throttling changes only the pressure. Quality is not
      carried over and reverts to the single-phase sentinel. */
  function ValveSolve(inlet: FluidState, dpFixed: real, cv: Option<real>): (r: ValveResult)
    requires UsesCv(cv, inlet) ==> cv.value != 0.0
    ensures r.inlet == inlet
    ensures !UsesCv(cv, inlet) ==> r.pressureDrop == dpFixed
    ensures UsesCv(cv, inlet) ==> r.pressureDrop >= 0.0
    ensures UsesCv(cv, inlet) ==> r.pressureDrop == CvPressureDrop(inlet.massFlow, inlet.density, cv.value)
    ensures r.outlet.pressure == inlet.pressure - r.pressureDrop
    ensures r.outlet == inlet.(pressure := r.outlet.pressure, quality := -1.0)
  {
    var dp := if UsesCv(cv, inlet) then CvPressureDrop(inlet.massFlow, inlet.density, cv.value) else dpFixed;
    var outlet := State(inlet.pressure - dp, inlet.temperature, inlet.massFlow, inlet.density,
                        inlet.enthalpy, inlet.entropy, inlet.fluidName);
    ValveResult(inlet, outlet, dp)
  }

  /** A valve object: a name, a fixed drop, an optional Cv and its latest
      result. */
  class Valve {
    const name: string
    const dpFixed: real
    const cv: Option<real>
    var result: Option<ValveResult>

    constructor (name: string, dpFixed: real, cv: Option<real>)
      ensures this.name == name && this.dpFixed == dpFixed && this.cv == cv
      ensures result == None
    {
      this.name := name;
      this.dpFixed := dpFixed;
      this.cv := cv;
      result := None;
    }

    /** Runs the valve model on `inlet` and records the result. */
    method Compute(inlet: FluidState) returns (outlet: FluidState)
      requires UsesCv(cv, inlet) ==> cv.value != 0.0
      modifies this
      ensures result == Some(ValveSolve(inlet, dpFixed, cv))
      ensures outlet == result.value.outlet
    {
      var r := ValveSolve(inlet, dpFixed, cv);
      result := Some(r);
      outlet := r.outlet;
    }

    /** A valve draws no shaft power. */
    function Power(): (p: real)
      ensures p == 0.0
    {
      0.0
    }

    /** The base summary, plus the last pressure drop in bar. */
    function Summary(): (d: Summary)
      reads this
      ensures result.None? ==> d.Keys == {"name", "type", "power_W"}
      ensures result.Some? ==> d.Keys == {"name", "type", "power_W", "pressure_drop_bar"}
      ensures d["name"] == Text(name) && d["type"] == Text("valve") && d["power_W"] == Num(0.0)
      ensures result.Some? ==> d["pressure_drop_bar"].Num?
                               && d["pressure_drop_bar"].num * 100000.0 == result.value.pressureDrop
    {
      var d := BaseSummary(name, "valve", Power());
      if result.Some? then d["pressure_drop_bar" := Num(result.value.pressureDrop / 100000.0)] else d
    }
  }

  /** A fixed-drop valve on the test's inlet: 50 kPa off 20 bar. */
  lemma FixedDropCase(t: real, m: real, rho: real, h: real, s: real, name: string)
    ensures ValveSolve(State(20.0e5, t, m, rho, h, s, name), 50000.0, None).outlet.pressure == 19.5e5
  {
  }
}
