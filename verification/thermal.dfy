/** Thermal analysis formulas (resa_pro/core/thermal.py): the adiabatic wall
    temperature, convective heat flux, the one-dimensional resistance network
    through a cooled wall, and radiative rejection. */
module Thermal {
  import opened Common
  import opened RealArith

  /** 1 + (gamma - 1)/2 * M^2, the isentropic stagnation-to-static ratio. */
  function StagnationRatio(gamma: real, mach: real): (d: real)
    ensures mach == 0.0 ==> d == 1.0
    ensures gamma > 1.0 && mach != 0.0 ==> d > 1.0
    ensures gamma >= 1.0 ==> d >= 1.0
  {
    var k := 0.5 * (gamma - 1.0);
    assert gamma >= 1.0 ==> k >= 0.0;
    1.0 + Mul(k, Sq(mach))
  }

  /** The static temperature Tc / (1 + (gamma - 1)/2 M^2); the ratio above
      divides it back to Tc. */
  function StaticTemperature(tc: real, gamma: real, mach: real): (ts: real)
    requires StagnationRatio(gamma, mach) != 0.0
    ensures ts * StagnationRatio(gamma, mach) == tc
    ensures mach == 0.0 ==> ts == tc
    ensures gamma > 1.0 && mach != 0.0 && tc > 0.0 ==> 0.0 < ts < tc
  {
    var d := StagnationRatio(gamma, mach);
    if gamma > 1.0 && mach != 0.0 && tc > 0.0 then
      DivByLargerStrict(tc, 1.0, d);
      tc / d
    else tc / d
  }

  /** `adiabatic_wall_temperature`: the static temperature recovered by the
      fraction r of the gap to Tc. With 0 <= r <= 1 it lies between the
      static temperature and Tc; r = 1 or M = 0 give Tc, r = 0 gives the
      static temperature. */
  function AdiabaticWallTemperature(tc: real, gamma: real, mach: real, recovery: real): (taw: real)
    requires StagnationRatio(gamma, mach) != 0.0
    ensures var ts := StaticTemperature(tc, gamma, mach);
            tc - taw == (1.0 - recovery) * (tc - ts)
    ensures var ts := StaticTemperature(tc, gamma, mach);
            0.0 <= recovery <= 1.0 && ts <= tc ==> ts <= taw <= tc
    ensures mach == 0.0 ==> taw == tc
    ensures recovery == 1.0 ==> taw == tc
    ensures recovery == 0.0 ==> taw == StaticTemperature(tc, gamma, mach)
  {
    var ts := StaticTemperature(tc, gamma, mach);
    var gap := tc - ts;
    if 0.0 <= recovery <= 1.0 && ts <= tc then
      MulLeMono(recovery, 1.0, gap);
      ts + Mul(recovery, gap)
    else ts + Mul(recovery, gap)
  }

  /** In a moving hot gas (gamma > 1, M != 0, Tc > 0) with a recovery factor
      below one the wall sees less than the chamber temperature. */
  lemma WallBelowChamber(tc: real, gamma: real, mach: real, recovery: real)
    requires gamma > 1.0 && mach != 0.0 && tc > 0.0 && recovery < 1.0
    ensures AdiabaticWallTemperature(tc, gamma, mach, recovery) < tc
  {
    assert StaticTemperature(tc, gamma, mach) < tc;
    BelowByPositiveGap(tc, AdiabaticWallTemperature(tc, gamma, mach, recovery), StaticTemperature(tc, gamma, mach),
                       recovery);
  }

  /** A wall recovering less than the whole gap stays below Tc. */
  lemma BelowByPositiveGap(tc: real, taw: real, ts: real, recovery: real)
    requires recovery < 1.0 && ts < tc && tc - taw == (1.0 - recovery) * (tc - ts)
    ensures taw < tc
  {
    MulPosStrictMonoAt(0.0, 1.0 - recovery, tc - ts, 0.0 * (tc - ts), tc - taw);
  }

  /** A larger recovery factor gives a strictly hotter wall whenever the
      static temperature lies below Tc. */
  lemma WallRisesWithRecovery(tc: real, gamma: real, mach: real, r1: real, r2: real)
    requires gamma > 1.0 && mach != 0.0 && tc > 0.0 && r1 < r2
    ensures AdiabaticWallTemperature(tc, gamma, mach, r1) < AdiabaticWallTemperature(tc, gamma, mach, r2)
  {
    assert tc - StaticTemperature(tc, gamma, mach) > 0.0;
    MulLtMono(r1, r2, tc - StaticTemperature(tc, gamma, mach));
  }

  /** `heat_flux`: h (T_aw - T_wall); it has the sign of the temperature
      difference when h > 0. */
  function HeatFlux(hg: real, taw: real, twall: real): (q: real)
    ensures hg > 0.0 && taw > twall ==> q > 0.0
    ensures hg > 0.0 && taw < twall ==> q < 0.0
    ensures q == Mul(hg, taw - twall)
  {
    Mul(hg, taw - twall)
  }

  /** With a non-zero film coefficient the flux vanishes exactly when the
      wall is at the adiabatic wall temperature. */
  lemma ZeroFluxIffEqualTemperatures(hg: real, taw: real, twall: real)
    requires hg != 0.0
    ensures HeatFlux(hg, taw, twall) == 0.0 <==> taw == twall
  {
    if taw != twall {
      NonzeroProduct(hg, taw - twall);
    }
  }

  /** Series resistance 1/h_g + t/k + 1/h_c of the gas film, the wall and
      the coolant film. */
  function TotalResistance(hg: real, hc: real, thickness: real, conductivity: real): (rt: real)
    requires hg != 0.0 && hc != 0.0 && conductivity != 0.0
    ensures hg > 0.0 && hc > 0.0 && thickness / conductivity >= 0.0 ==> rt > 0.0
    ensures rt - 1.0 / hg - 1.0 / hc == thickness / conductivity
  {
    1.0 / hg + thickness / conductivity + 1.0 / hc
  }

  /** The flux through the network: driving difference over total
      resistance. */
  function NetworkFlux(hg: real, taw: real, hc: real, tcool: real, thickness: real, conductivity: real): (q: real)
    requires hg != 0.0 && hc != 0.0 && conductivity != 0.0
    requires TotalResistance(hg, hc, thickness, conductivity) != 0.0
    ensures q * TotalResistance(hg, hc, thickness, conductivity) == taw - tcool
  {
    (taw - tcool) / TotalResistance(hg, hc, thickness, conductivity)
  }

  /** `wall_temperature_simple`: (T_wg, T_wc). The network flux crosses
      each resistance in turn, so each of the three temperature drops is
      the flux times that resistance. */
  function WallTemperatureSimple(hg: real, taw: real, hc: real, tcool: real, thickness: real,
                                 conductivity: real): (r: (real, real))
    requires hg != 0.0 && hc != 0.0 && conductivity != 0.0
    requires TotalResistance(hg, hc, thickness, conductivity) != 0.0
    ensures var q := NetworkFlux(hg, taw, hc, tcool, thickness, conductivity);
            taw - r.0 == q * (1.0 / hg) && r.1 - tcool == q * (1.0 / hc)
    ensures var q := NetworkFlux(hg, taw, hc, tcool, thickness, conductivity);
            r.0 - r.1 == q * (thickness / conductivity)
  {
    var q := NetworkFlux(hg, taw, hc, tcool, thickness, conductivity);
    var twg := taw - q * (1.0 / hg);
    var twc := tcool + q * (1.0 / hc);
    assert twg - twc == q * TotalResistance(hg, hc, thickness, conductivity) - q * (1.0 / hg) - q * (1.0 / hc);
    (twg, twc)
  }

  /** Positive film coefficients, a conducting wall of positive thickness
      and a gas hotter than the coolant order the temperatures through the
      wall: T_coolant < T_wc < T_wg < T_aw. */
  lemma WallTemperatureOrdering(hg: real, taw: real, hc: real, tcool: real, thickness: real, conductivity: real)
    requires hg > 0.0 && hc > 0.0 && conductivity != 0.0 && thickness / conductivity > 0.0
    requires taw > tcool
    ensures var (twg, twc) := WallTemperatureSimple(hg, taw, hc, tcool, thickness, conductivity);
            tcool < twc < twg < taw
  {
    var rt := TotalResistance(hg, hc, thickness, conductivity);
    var q := NetworkFlux(hg, taw, hc, tcool, thickness, conductivity);
    assert q > 0.0 by {
      if q <= 0.0 {
        MulNonnegMono(q, 0.0, rt);
        assert false;
      }
    }
    PosDivPos(1.0, hg);
    PosDivPos(1.0, hc);
    PosMulPos(q, 1.0 / hg);
    PosMulPos(q, 1.0 / hc);
    PosMulPos(q, thickness / conductivity);
  }

  /** `radiative_heat_rejection`: eps * sigma * T^4. */
  function RadiativeHeatRejection(twall: real, emissivity: real): (q: real)
    ensures emissivity >= 0.0 ==> q >= 0.0
    ensures emissivity > 0.0 && twall != 0.0 ==> q > 0.0
    ensures q == Mul(emissivity * STEFAN_BOLTZMANN, Sq(Sq(twall)))
  {
    Mul(emissivity * STEFAN_BOLTZMANN, Sq(Sq(twall)))
  }

  /** A hotter wall rejects strictly more heat. */
  lemma RejectionRisesWithTemperature(t1: real, t2: real, emissivity: real)
    requires 0.0 <= t1 < t2 && emissivity > 0.0
    ensures RadiativeHeatRejection(t1, emissivity) < RadiativeHeatRejection(t2, emissivity)
  {
    SqStrictMono(t1, t2);
    SqStrictMono(Sq(t1), Sq(t2));
    var c := emissivity * STEFAN_BOLTZMANN;
    MulLtMono(Sq(Sq(t1)), Sq(Sq(t2)), c);
    MulComm(Sq(Sq(t1)), c);
    MulComm(Sq(Sq(t2)), c);
  }

  /** Squaring is strictly monotone on the non-negative reals. */
  lemma SqStrictMono(a: real, b: real)
    requires 0.0 <= a < b
    ensures Sq(a) < Sq(b)
  {
    MulLeMono(a, b, a);
    MulLtMono(a, b, b);
    MulComm(a, b);
  }

  /** A fourth root of the non-negative reals, the x ** 0.25 of the
      source. */
  type FourthRootFn = real -> real

  ghost predicate IsFourthRoot(root: FourthRootFn)
  {
    forall x {:trigger root(x)} :: x >= 0.0 ==> root(x) >= 0.0 && Sq(Sq(root(x))) == x
  }

  /** `radiative_equilibrium_temperature`: (q / (eps sigma)) ** 0.25. */
  function RadiativeEquilibriumTemperature(qIncident: real, emissivity: real, root: FourthRootFn): (t: real)
    requires emissivity != 0.0 && qIncident / (emissivity * STEFAN_BOLTZMANN) >= 0.0
    ensures IsFourthRoot(root) ==> t >= 0.0 && Sq(Sq(t)) == qIncident / (emissivity * STEFAN_BOLTZMANN)
  {
    root(qIncident / (emissivity * STEFAN_BOLTZMANN))
  }

  /** The equilibrium temperature rejects exactly the incident flux. */
  lemma EquilibriumRejectsIncident(qIncident: real, emissivity: real, root: FourthRootFn)
    requires IsFourthRoot(root)
    requires emissivity != 0.0 && qIncident / (emissivity * STEFAN_BOLTZMANN) >= 0.0
    ensures RadiativeHeatRejection(RadiativeEquilibriumTemperature(qIncident, emissivity, root), emissivity)
            == qIncident
  {
    var c := emissivity * STEFAN_BOLTZMANN;
    var x := qIncident / c;
    assert Sq(Sq(root(x))) == x;
    assert c * x == qIncident;
  }
}
