/** Pipe component: the feed-line loss model wrapped as a cycle component
    (resa_pro/cycle/components/pipe.py). */
module PipeModel {
  import opened Common
  import opened FluidStates
  import opened FeedSystem

  datatype PipeResult = PipeResult(
    inlet: FluidState,
    outlet: FluidState,
    pressureDrop: real,
    velocity: real,
    reynolds: real)

  /** The density the pipe works with: the inlet's, or 1000 kg/m^3. */
  function PipeDensity(inlet: FluidState): (rho: real)
    ensures rho > 0.0
    ensures inlet.density > 0.0 ==> rho == inlet.density
    ensures inlet.density <= 0.0 ==> rho == 1000.0
  {
    if inlet.density > 0.0 then inlet.density else 1000.0
  }

  /** The pipe model: the outlet loses the feed line's total drop; mass
      flow, temperature, enthalpy and fluid name pass through, the density
      is the one used, and entropy and quality revert to their defaults. */
  function PipeSolve(inlet: FluidState, mu: real, diameter: real, length: real, heightChange: real,
                     kMinor: real, roughness: real, turbulent: FrictionFn): (r: PipeResult)
    requires diameter != 0.0
    ensures var fl := FeedLinePressureDrop(inlet.massFlow, PipeDensity(inlet), mu, diameter, length,
                                           heightChange, kMinor, roughness, turbulent);
            r.pressureDrop == fl.totalDp && r.velocity == fl.velocity && r.reynolds == fl.reynolds
    ensures r.inlet == inlet
    ensures r.outlet.pressure == inlet.pressure - r.pressureDrop
    ensures r.outlet.massFlow == inlet.massFlow && r.outlet.temperature == inlet.temperature
    ensures r.outlet.enthalpy == inlet.enthalpy && r.outlet.fluidName == inlet.fluidName
    ensures r.outlet.density == PipeDensity(inlet)
    ensures r.outlet.entropy == 0.0 && r.outlet.quality == -1.0
  {
    var rho := PipeDensity(inlet);
    var fl := FeedLinePressureDrop(inlet.massFlow, rho, mu, diameter, length, heightChange, kMinor,
                                   roughness, turbulent);
    var outlet := State(inlet.pressure - fl.totalDp, inlet.temperature, inlet.massFlow, rho,
                        inlet.enthalpy, 0.0, inlet.fluidName);
    PipeResult(inlet, outlet, fl.totalDp, fl.velocity, fl.reynolds)
  }

  /** A pipe object: its geometry and its latest result. */
  class Pipe {
    const name: string
    const diameter: real
    const length: real
    const heightChange: real
    const kMinor: real
    const roughness: real
    var result: Option<PipeResult>

    constructor (name: string, diameter: real, length: real, heightChange: real, kMinor: real, roughness: real)
      ensures this.name == name && this.diameter == diameter && this.length == length
      ensures this.heightChange == heightChange && this.kMinor == kMinor && this.roughness == roughness
      ensures result == None
    {
      this.name := name;
      this.diameter := diameter;
      this.length := length;
      this.heightChange := heightChange;
      this.kMinor := kMinor;
      this.roughness := roughness;
      result := None;
    }

    /** Runs the pipe model on `inlet` and records the result. */
    method Compute(inlet: FluidState, mu: real, turbulent: FrictionFn) returns (outlet: FluidState)
      requires diameter != 0.0
      modifies this
      ensures result == Some(PipeSolve(inlet, mu, diameter, length, heightChange, kMinor, roughness, turbulent))
      ensures outlet == result.value.outlet
    {
      var r := PipeSolve(inlet, mu, diameter, length, heightChange, kMinor, roughness, turbulent);
      result := Some(r);
      outlet := r.outlet;
    }

    /** A pipe draws no shaft power. */
    function Power(): (p: real)
      ensures p == 0.0
    {
      0.0
    }

    /** The base summary, plus drop in bar, velocity and Reynolds number. */
    function Summary(): (d: Summary)
      reads this
      ensures result.None? ==> d.Keys == {"name", "type", "power_W"}
      ensures result.Some? ==>
                d.Keys == {"name", "type", "power_W", "pressure_drop_bar", "velocity_m_s", "reynolds"}
      ensures d["name"] == Text(name) && d["type"] == Text("pipe") && d["power_W"] == Num(0.0)
      ensures result.Some? ==> d["pressure_drop_bar"].Num?
                               && d["pressure_drop_bar"].num * 100000.0 == result.value.pressureDrop
      ensures result.Some? ==> d["velocity_m_s"] == Num(result.value.velocity)
      ensures result.Some? ==> d["reynolds"] == Num(result.value.reynolds)
    {
      var d := BaseSummary(name, "pipe", Power());
      if result.Some? then
        d["pressure_drop_bar" := Num(result.value.pressureDrop / 100000.0)]
         ["velocity_m_s" := Num(result.value.velocity)]
         ["reynolds" := Num(result.value.reynolds)]
      else d
    }
  }

  /** With a positive friction factor and a moving fluid, a longer pipe
      delivers a strictly lower outlet pressure from the same inlet. */
  lemma LongerPipeLowerOutlet(inlet: FluidState, mu: real, diameter: real, l1: real, l2: real,
                              heightChange: real, kMinor: real, roughness: real, turbulent: FrictionFn)
    requires diameter > 0.0 && l1 < l2
    requires PipeVelocity(inlet.massFlow, PipeDensity(inlet), diameter) != 0.0
    requires DarcyFriction(Reynolds(PipeDensity(inlet), PipeVelocity(inlet.massFlow, PipeDensity(inlet), diameter),
                                    diameter, mu), roughness / diameter, turbulent) > 0.0
    ensures PipeSolve(inlet, mu, diameter, l2, heightChange, kMinor, roughness, turbulent).outlet.pressure
            < PipeSolve(inlet, mu, diameter, l1, heightChange, kMinor, roughness, turbulent).outlet.pressure
  {
    LongerLineLosesMore(inlet.massFlow, PipeDensity(inlet), mu, diameter, l1, l2, heightChange, kMinor,
                        roughness, turbulent);
  }
}
