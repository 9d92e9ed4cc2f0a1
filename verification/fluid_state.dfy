/** The fluid state record shared by every cycle component, and the
    component summary record (resa_pro/cycle/components/base.py). */
module FluidStates {

  /** Thermodynamic state of a fluid at one point of the cycle, SI units.
      `quality` is -1 for a single-phase fluid. */
  datatype FluidState = FluidState(
    pressure: real,
    temperature: real,
    massFlow: real,
    density: real,
    enthalpy: real,
    entropy: real,
    quality: real,
    fluidName: string)

  /** The state built with every field left at its default. */
  function DefaultState(): (s: FluidState)
    ensures s.pressure == 0.0 && s.temperature == 0.0 && s.massFlow == 0.0
    ensures s.density == 0.0 && s.enthalpy == 0.0 && s.entropy == 0.0
    ensures s.quality == -1.0 && s.fluidName == ""
    ensures !IsTwoPhase(s)
  {
    FluidState(0.0, 0.0, 0.0, 0.0, 0.0, 0.0, -1.0, "")
  }

  /** A state whose unspecified fields (density, enthalpy, entropy, quality)
      keep their defaults, as the source builds most states. */
  function State(pressure: real, temperature: real, massFlow: real, density: real,
                 enthalpy: real, entropy: real, fluidName: string): (s: FluidState)
    ensures s.quality == -1.0 && !IsTwoPhase(s)
    ensures s.pressure == pressure && s.temperature == temperature && s.massFlow == massFlow
    ensures s.density == density && s.enthalpy == enthalpy && s.entropy == entropy
    ensures s.fluidName == fluidName
  {
    FluidState(pressure, temperature, massFlow, density, enthalpy, entropy, -1.0, fluidName)
  }

  /** `is_two_phase`: the quality lies in [0, 1]; the single-phase
      sentinel -1 never does. */
  predicate IsTwoPhase(s: FluidState)
    ensures IsTwoPhase(s) ==> s.quality != -1.0
  {
    0.0 <= s.quality <= 1.0
  }

  /** Two-phase exactly for a quality inside [0, 1]: 0.5 is two-phase, the
      single-phase sentinel -1 is not. */
  lemma TwoPhaseCases(s: FluidState)
    ensures IsTwoPhase(s.(quality := 0.5))
    ensures !IsTwoPhase(s.(quality := -1.0))
    ensures IsTwoPhase(s) <==> (s.quality >= 0.0 && s.quality <= 1.0)
  {
  }

  /** One entry of a component summary dictionary. */
  datatype Field = Text(text: string) | Num(num: real) | Flag(flag: bool)

  type Summary = map<string, Field>

  /** The base summary of every component: its name, its type and its power. */
  function BaseSummary(name: string, kind: string, power: real): (d: Summary)
    ensures d.Keys == {"name", "type", "power_W"}
    ensures d["name"] == Text(name) && d["type"] == Text(kind) && d["power_W"] == Num(power)
  {
    map["name" := Text(name), "type" := Text(kind), "power_W" := Num(power)]
  }
}
