/** Nozzle angle estimates, efficiency and flow-separation checks
    (resa_pro/core/nozzle.py). The contour generators are trigonometric and
    are not part of this model; a contour enters only through the fields the
    efficiency calculation reads. */
module Nozzle {
  import opened Common
  import opened RealArith

  /** `_rao_angles` in degrees: the initial angle depends only on the
      fractional length Lf; the exit angle falls with the expansion ratio,
      is clamped at 3 degrees, then shifted by +2 for short nozzles
      (Lf < 0.7) or -1.5 for long ones (Lf > 0.85), and never drops below
      2 degrees. */
  function RaoAnglesDeg(expansionRatio: real, lf: real): (r: (real, real))
    ensures r.0 == 21.0 + 14.0 * (1.0 - lf)
    ensures r.1 >= 2.0
    ensures var base := Max(7.0 - 0.15 * (expansionRatio - 10.0), 3.0);
            && (0.7 <= lf <= 0.85 ==> r.1 == base)
            && (lf < 0.7 ==> r.1 == base + 2.0)
            && (lf > 0.85 ==> r.1 == Max(base - 1.5, 2.0))
  {
    var thetaI := 21.0 + 14.0 * (1.0 - lf);
    var thetaE := Max(7.0 - 0.15 * (expansionRatio - 10.0), 3.0);
    var thetaE' := if lf < 0.7 then thetaE + 2.0 else if lf > 0.85 then thetaE - 1.5 else thetaE;
    (thetaI, Max(thetaE', 2.0))
  }

  /** `_rao_angles`: the same angles in radians. */
  function RaoAngles(expansionRatio: real, lf: real): (r: (real, real))
    ensures r.0 == RaoAnglesDeg(expansionRatio, lf).0 * DEG_TO_RAD
    ensures r.1 == RaoAnglesDeg(expansionRatio, lf).1 * DEG_TO_RAD
    ensures r.1 >= 2.0 * DEG_TO_RAD
  {
    var deg := RaoAnglesDeg(expansionRatio, lf);
    (deg.0 * DEG_TO_RAD, deg.1 * DEG_TO_RAD)
  }

  /** A larger expansion ratio never steepens the exit angle. */
  lemma ExitAngleFallsWithExpansion(e1: real, e2: real, lf: real)
    requires e1 <= e2
    ensures RaoAnglesDeg(e2, lf).1 <= RaoAnglesDeg(e1, lf).1
  {
  }

  /** A shorter nozzle (smaller Lf) starts with a strictly steeper wall. */
  lemma InitialAngleFallsWithLength(eps: real, lf1: real, lf2: real)
    requires lf1 < lf2
    ensures RaoAnglesDeg(eps, lf2).0 < RaoAnglesDeg(eps, lf1).0
  {
  }

  /** For expansion ratios of at least 1 and fractional lengths up to 1 the
      wall turns inwards along the bell: the initial angle (at least 21
      degrees) exceeds the exit angle (at most 10.35 degrees). */
  lemma InitialSteeperThanExit(eps: real, lf: real)
    requires eps >= 1.0 && lf <= 1.0
    ensures RaoAnglesDeg(eps, lf).0 > RaoAnglesDeg(eps, lf).1
  {
    var base := Max(7.0 - 0.15 * (eps - 10.0), 3.0);
    assert base <= 8.35;
  }

  /** `estimate_boundary_layer_loss`: 0.005 (1 + 0.1 L/Rt) (2e6/max(Pc, 1e5))^0.1
      clamped to [0.001, 0.05]. The clamp holds for any value of the power. */
  function BoundaryLayerLoss(throatRadius: real, nozzleLength: real, chamberPressure: real, pow: PowFn): (loss: real)
    requires throatRadius != 0.0
    ensures 0.001 <= loss <= 0.05
    ensures var raw := RawBoundaryLayerLoss(throatRadius, nozzleLength, chamberPressure, pow);
            0.001 <= raw <= 0.05 ==> loss == raw
    ensures var raw := RawBoundaryLayerLoss(throatRadius, nozzleLength, chamberPressure, pow);
            (raw < 0.001 ==> loss == 0.001) && (raw > 0.05 ==> loss == 0.05)
  {
    Min(Max(RawBoundaryLayerLoss(throatRadius, nozzleLength, chamberPressure, pow), 0.001), 0.05)
  }

  /** The correlation before the clamp. */
  function RawBoundaryLayerLoss(throatRadius: real, nozzleLength: real, chamberPressure: real, pow: PowFn): real
    requires throatRadius != 0.0
  {
    Mul(0.005 * (1.0 + 0.1 * (nozzleLength / throatRadius)), pow(2.0e6 / Max(chamberPressure, 1.0e5), 0.1))
  }

  /** x^0.1 is non-decreasing on the positive reals. */
  ghost predicate TenthPowerMonotone(pow: PowFn)
  {
    forall x, y {:trigger pow(x, 0.1), pow(y, 0.1)} :: 0.0 < x <= y ==> pow(x, 0.1) <= pow(y, 0.1)
  }

  /** Higher chamber pressure never raises the boundary-layer loss of a
      given nozzle (its length-to-throat factor being positive), because
      the pressure enters only through a falling base of a rising power. */
  lemma LossFallsWithPressure(throatRadius: real, nozzleLength: real, pc1: real, pc2: real, pow: PowFn)
    requires throatRadius != 0.0 && 1.0 + 0.1 * (nozzleLength / throatRadius) > 0.0
    requires TenthPowerMonotone(pow)
    requires pc1 <= pc2
    ensures BoundaryLayerLoss(throatRadius, nozzleLength, pc2, pow)
            <= BoundaryLayerLoss(throatRadius, nozzleLength, pc1, pow)
  {
    var b1 := 2.0e6 / Max(pc1, 1.0e5);
    var b2 := 2.0e6 / Max(pc2, 1.0e5);
    DivByLargerMono(2.0e6, Max(pc1, 1.0e5), Max(pc2, 1.0e5));
    PosDivPos(2.0e6, Max(pc2, 1.0e5));
    assert pow(b2, 0.1) <= pow(b1, 0.1);
    var k := 0.005 * (1.0 + 0.1 * (nozzleLength / throatRadius));
    MulLeMono(pow(b2, 0.1), pow(b1, 0.1), k);
    MulComm(pow(b2, 0.1), k);
    MulComm(pow(b1, 0.1), k);
  }

  /** The fields of a generated contour that the efficiency estimate reads. */
  datatype NozzleContour = NozzleContour(
    expansionRatio: real,
    throatRadius: real,
    exitRadius: real,
    length: real,
    divergenceEfficiency: real)

  datatype NozzleEfficiency = NozzleEfficiency(
    divergenceEfficiency: real,
    boundaryLayerLoss: real,
    totalEfficiency: real,
    correctedCF: real,
    correctedIsp: real)

  /** `compute_nozzle_efficiency`: the total efficiency is the divergence
      efficiency times (1 - boundary-layer loss), and both the thrust
      coefficient and the specific impulse are scaled by it. */
  function ComputeNozzleEfficiency(contour: NozzleContour, cfIdeal: real, ispIdeal: real,
                                   chamberPressure: real, pow: PowFn): (e: NozzleEfficiency)
    requires contour.throatRadius != 0.0
    ensures e.divergenceEfficiency == contour.divergenceEfficiency
    ensures e.boundaryLayerLoss == BoundaryLayerLoss(contour.throatRadius, contour.length, chamberPressure, pow)
    ensures e.totalEfficiency == e.divergenceEfficiency * (1.0 - e.boundaryLayerLoss)
    ensures e.correctedCF == cfIdeal * e.totalEfficiency && e.correctedIsp == ispIdeal * e.totalEfficiency
  {
    var div := contour.divergenceEfficiency;
    var bl := BoundaryLayerLoss(contour.throatRadius, contour.length, chamberPressure, pow);
    var total := div * (1.0 - bl);
    NozzleEfficiency(div, bl, total, cfIdeal * total, ispIdeal * total)
  }

  /** With a divergence efficiency in (0, 1] the total efficiency lies in
      [0.95 div, 0.999 div], so it is positive and below one, and positive
      ideal values are strictly reduced. */
  lemma EfficiencyReducesPerformance(contour: NozzleContour, cfIdeal: real, ispIdeal: real,
                                     chamberPressure: real, pow: PowFn)
    requires contour.throatRadius != 0.0
    requires 0.0 < contour.divergenceEfficiency <= 1.0
    ensures var e := ComputeNozzleEfficiency(contour, cfIdeal, ispIdeal, chamberPressure, pow);
            && 0.95 * contour.divergenceEfficiency <= e.totalEfficiency <= 0.999 * contour.divergenceEfficiency
            && 0.0 < e.totalEfficiency < 1.0
            && (cfIdeal > 0.0 ==> 0.0 < e.correctedCF < cfIdeal)
            && (ispIdeal > 0.0 ==> 0.0 < e.correctedIsp < ispIdeal)
  {
    var e := ComputeNozzleEfficiency(contour, cfIdeal, ispIdeal, chamberPressure, pow);
    var div := contour.divergenceEfficiency;
    var keep := 1.0 - e.boundaryLayerLoss;
    MulLeMono(0.95, keep, div);
    MulLeMono(keep, 0.999, div);
    assert e.totalEfficiency == Mul(keep, div);
    var t := e.totalEfficiency;
    if cfIdeal > 0.0 {
      MulLtMono(t, 1.0, cfIdeal);
      PosMulPos(cfIdeal, t);
    }
    if ispIdeal > 0.0 {
      MulLtMono(t, 1.0, ispIdeal);
      PosMulPos(ispIdeal, t);
    }
  }

  /** `summerfield_separation_pressure`: 0.37 pa; the chamber pressure is
      not used. */
  function SummerfieldSeparationPressure(pc: real, pa: real): (pSep: real)
    ensures pa > 0.0 ==> 0.0 < pSep < pa
    ensures pa == 0.0 ==> pSep == 0.0
    ensures pSep * 100.0 == 37.0 * pa
  {
    0.37 * pa
  }

  datatype SeparationCheck = SeparationCheck(
    separated: bool,
    pe: real,
    pa: real,
    pSeparation: real,
    margin: Extended)

  /** `check_flow_separation`: separated exactly when the exit pressure is
      below the Summerfield pressure; the margin is (pe - p_sep)/pa, or +inf
      when the ambient pressure is not positive. */
  function CheckFlowSeparation(pe: real, pa: real): (c: SeparationCheck)
    ensures c.pe == pe && c.pa == pa
    ensures c.pSeparation == SummerfieldSeparationPressure(0.0, pa)
    ensures c.separated <==> pe < c.pSeparation
    ensures pa > 0.0 ==> c.margin.Finite? && c.margin.value * pa == pe - c.pSeparation
    ensures pa <= 0.0 ==> c.margin == PosInf
  {
    var pSep := SummerfieldSeparationPressure(0.0, pa);
    SeparationCheck(pe < pSep, pe, pa, pSep, if pa > 0.0 then Finite((pe - pSep) / pa) else PosInf)
  }

  /** Under a positive ambient pressure the flow separates exactly when the
      margin is negative. */
  lemma SeparatedIffNegativeMargin(pe: real, pa: real)
    requires pa > 0.0
    ensures var c := CheckFlowSeparation(pe, pa);
            c.separated <==> c.margin.value < 0.0
  {
    var c := CheckFlowSeparation(pe, pa);
    var d := pe - c.pSeparation;
    if d < 0.0 {
      assert c.margin.value < 0.0 by {
        if c.margin.value >= 0.0 {
          MulNonnegMono(0.0, c.margin.value, pa);
        }
      }
    } else {
      var m := c.margin.value;
      assert m >= 0.0 by {
        if m < 0.0 {
          MulPosStrictMono(m, 0.0, pa);
        }
      }
    }
  }

  /** Raising the exit pressure can only undo separation, never cause it. */
  lemma SeparationMonotoneInExitPressure(pe1: real, pe2: real, pa: real)
    requires pe1 <= pe2
    ensures CheckFlowSeparation(pe2, pa).separated ==> CheckFlowSeparation(pe1, pa).separated
  {
  }
}
