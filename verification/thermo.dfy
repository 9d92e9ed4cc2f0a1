/** The combustion-data table with its lookup, and the algebraic performance
    relations between thrust, throat area, mass flow, c*, CF and Isp
    (resa_pro/core/thermo.py). The isentropic relations themselves are
    transcendental and are not part of this module. */
module Thermo {
  import opened Common

  /** One tabulated row: product properties of a propellant pair at one
      O/F mixture ratio. */
  datatype CombustionData = CombustionData(
    oxidizer: string,
    fuel: string,
    mixtureRatio: real,
    chamberTemperature: real,
    gamma: real,
    molarMass: real,
    cStar: real)

  /** The eleven representative rows, in table order. */
  function CombustionTable(): (t: seq<CombustionData>)
    ensures |t| == 11
    ensures forall i :: 0 <= i < |t| ==> t[i].cStar > 0.0 && t[i].gamma > 1.0
    ensures forall i :: 0 <= i < |t| ==> t[i].chamberTemperature > 2000.0
  {
    [ CombustionData("n2o", "ethanol", 3.0, 2800.0, 1.23, 0.0245, 1520.0),
      CombustionData("n2o", "ethanol", 4.0, 3100.0, 1.21, 0.0260, 1550.0),
      CombustionData("n2o", "ethanol", 5.0, 3200.0, 1.19, 0.0270, 1540.0),
      CombustionData("lox", "ethanol", 1.5, 3200.0, 1.20, 0.0230, 1650.0),
      CombustionData("lox", "ethanol", 2.0, 3400.0, 1.18, 0.0240, 1700.0),
      CombustionData("lox", "rp1", 2.3, 3500.0, 1.22, 0.0230, 1750.0),
      CombustionData("lox", "rp1", 2.7, 3600.0, 1.20, 0.0235, 1780.0),
      CombustionData("lox", "methane", 3.0, 3400.0, 1.19, 0.0210, 1780.0),
      CombustionData("lox", "methane", 3.5, 3550.0, 1.17, 0.0220, 1800.0),
      CombustionData("lox", "hydrogen", 5.0, 3200.0, 1.25, 0.0120, 2300.0),
      CombustionData("lox", "hydrogen", 6.0, 3400.0, 1.22, 0.0130, 2350.0) ]
  }

  /** Lower-casing of one character (ASCII letters only). */
  function LowerChar(c: char): (r: char)
    ensures 'A' <= c <= 'Z' ==> 'a' <= r <= 'z'
    ensures !('A' <= c <= 'Z') ==> r == c
  {
    if 'A' <= c <= 'Z' then (c as int - 'A' as int + 'a' as int) as char else c
  }

  function Lower(s: string): string
  {
    if s == [] then [] else [LowerChar(s[0])] + Lower(s[1..])
  }

  /** Lower-casing keeps the length and maps each character on its own. */
  lemma {:induction false} LowerMeaning(s: string)
    ensures |Lower(s)| == |s|
    ensures forall i :: 0 <= i < |s| ==> Lower(s)[i] == LowerChar(s[i])
  {
    if s != [] {
      LowerMeaning(s[1..]);
    }
  }

  /** A row belongs to the requested pair, compared case-insensitively. */
  predicate PairMatches(d: CombustionData, oxidizer: string, fuel: string)
  {
    Lower(d.oxidizer) == Lower(oxidizer) && Lower(d.fuel) == Lower(fuel)
  }

  /** The rows of `table` that belong to the pair, in table order. */
  function Matching(table: seq<CombustionData>, oxidizer: string, fuel: string): (m: seq<CombustionData>)
    ensures |m| <= |table|
  {
    if table == [] then []
    else
      var rest := Matching(table[1..], oxidizer, fuel);
      if PairMatches(table[0], oxidizer, fuel) then [table[0]] + rest else rest
  }

  /** A row is in the matching list exactly when it is a row of the table
      that belongs to the pair. */
  lemma {:induction false} MatchingMeaning(table: seq<CombustionData>, oxidizer: string, fuel: string)
    ensures forall d :: d in Matching(table, oxidizer, fuel) <==> d in table && PairMatches(d, oxidizer, fuel)
  {
    if table != [] {
      MatchingMeaning(table[1..], oxidizer, fuel);
      assert forall d :: d in table <==> d == table[0] || d in table[1..];
    }
  }

  /** Index, among the first `k` rows, of the first row whose mixture ratio is
      closest to `mr`: no row is closer and every earlier row is strictly
      farther. This is the head of a stable sort by |MR - mr|. */
  function ClosestIndex(m: seq<CombustionData>, mr: real, k: nat): (i: nat)
    requires 0 < k <= |m|
    ensures i < k
    ensures forall j :: 0 <= j < k ==> Abs(m[i].mixtureRatio - mr) <= Abs(m[j].mixtureRatio - mr)
    ensures forall j :: 0 <= j < i ==> Abs(m[i].mixtureRatio - mr) < Abs(m[j].mixtureRatio - mr)
  {
    if k == 1 then 0
    else
      var b := ClosestIndex(m, mr, k - 1);
      if Abs(m[k - 1].mixtureRatio - mr) < Abs(m[b].mixtureRatio - mr) then k - 1 else b
  }

  /** Index, among the first `k` rows, of the first row of largest c*: no row
      has a larger c* and every earlier row has a strictly smaller one. */
  function MaxCStarIndex(m: seq<CombustionData>, k: nat): (i: nat)
    requires 0 < k <= |m|
    ensures i < k
    ensures forall j :: 0 <= j < k ==> m[j].cStar <= m[i].cStar
    ensures forall j :: 0 <= j < i ==> m[j].cStar < m[i].cStar
  {
    if k == 1 then 0
    else
      var b := MaxCStarIndex(m, k - 1);
      if m[k - 1].cStar > m[b].cStar then k - 1 else b
  }

  /** The combustion lookup over a table: KeyError when no row matches the
      pair; with a mixture ratio, the first matching row of minimal
      |MR - requested|; without one, the first matching row of largest c*. */
  function Lookup(table: seq<CombustionData>, oxidizer: string, fuel: string,
                  mixtureRatio: Option<real>): (r: Outcome<CombustionData>)
    ensures r.Fail? <==> forall d :: d in table ==> !PairMatches(d, oxidizer, fuel)
    ensures r.Fail? ==> r.error == KeyError
    ensures r.Ok? ==> r.value in table && PairMatches(r.value, oxidizer, fuel)
    ensures r.Ok? && mixtureRatio.Some? ==>
              forall d :: d in table && PairMatches(d, oxidizer, fuel) ==>
                Abs(r.value.mixtureRatio - mixtureRatio.value) <= Abs(d.mixtureRatio - mixtureRatio.value)
    ensures r.Ok? && mixtureRatio.None? ==>
              forall d :: d in table && PairMatches(d, oxidizer, fuel) ==> d.cStar <= r.value.cStar
    ensures var m := Matching(table, oxidizer, fuel);
            r.Ok? && mixtureRatio.Some? ==> 0 < |m| && r.value == m[ClosestIndex(m, mixtureRatio.value, |m|)]
    ensures var m := Matching(table, oxidizer, fuel);
            r.Ok? && mixtureRatio.None? ==> 0 < |m| && r.value == m[MaxCStarIndex(m, |m|)]
  {
    var m := Matching(table, oxidizer, fuel);
    NoMatchIffEmpty(table, oxidizer, fuel);
    if |m| == 0 then Fail(KeyError)
    else if mixtureRatio.Some? then
      ClosestIsMinimal(table, oxidizer, fuel, mixtureRatio.value);
      Ok(m[ClosestIndex(m, mixtureRatio.value, |m|)])
    else
      MaxCStarIsMaximal(table, oxidizer, fuel);
      Ok(m[MaxCStarIndex(m, |m|)])
  }

  /** No row of the table matches exactly when the matching list is empty. */
  lemma NoMatchIffEmpty(table: seq<CombustionData>, oxidizer: string, fuel: string)
    ensures |Matching(table, oxidizer, fuel)| == 0 <==> forall d :: d in table ==> !PairMatches(d, oxidizer, fuel)
  {
    var m := Matching(table, oxidizer, fuel);
    MatchingMeaning(table, oxidizer, fuel);
    if |m| > 0 {
      assert m[0] in m;
    }
  }

  /** The closest matching row is at least as close as every matching row of
      the whole table. */
  lemma ClosestIsMinimal(table: seq<CombustionData>, oxidizer: string, fuel: string, mr: real)
    requires |Matching(table, oxidizer, fuel)| > 0
    ensures var m := Matching(table, oxidizer, fuel);
            var i := ClosestIndex(m, mr, |m|);
            m[i] in table && PairMatches(m[i], oxidizer, fuel) &&
            forall d :: d in table && PairMatches(d, oxidizer, fuel) ==>
              Abs(m[i].mixtureRatio - mr) <= Abs(d.mixtureRatio - mr)
  {
    var m := Matching(table, oxidizer, fuel);
    MatchingMeaning(table, oxidizer, fuel);
    var i := ClosestIndex(m, mr, |m|);
    assert m[i] in m;
    forall d | d in table && PairMatches(d, oxidizer, fuel)
      ensures Abs(m[i].mixtureRatio - mr) <= Abs(d.mixtureRatio - mr)
    {
      var j :| 0 <= j < |m| && m[j] == d;
      assert Abs(m[i].mixtureRatio - mr) <= Abs(m[j].mixtureRatio - mr);
    }
  }

  /** The row of largest c* among the matching rows beats every matching row
      of the whole table. */
  lemma MaxCStarIsMaximal(table: seq<CombustionData>, oxidizer: string, fuel: string)
    requires |Matching(table, oxidizer, fuel)| > 0
    ensures var m := Matching(table, oxidizer, fuel);
            var i := MaxCStarIndex(m, |m|);
            m[i] in table && PairMatches(m[i], oxidizer, fuel) &&
            forall d :: d in table && PairMatches(d, oxidizer, fuel) ==> d.cStar <= m[i].cStar
  {
    var m := Matching(table, oxidizer, fuel);
    MatchingMeaning(table, oxidizer, fuel);
    var i := MaxCStarIndex(m, |m|);
    assert m[i] in m;
    forall d | d in table && PairMatches(d, oxidizer, fuel)
      ensures d.cStar <= m[i].cStar
    {
      assert d in m;
      var j :| 0 <= j < |m| && m[j] == d;
    }
  }

  /** `lookup_combustion`: the lookup over the built-in table. */
  function LookupCombustion(oxidizer: string, fuel: string, mixtureRatio: Option<real>): (r: Outcome<CombustionData>)
    ensures r.Ok? ==> r.value.cStar > 0.0 && r.value.gamma > 1.0 && r.value.chamberTemperature > 2000.0
  {
    var r := Lookup(CombustionTable(), oxidizer, fuel, mixtureRatio);
    assert r.Ok? ==> exists i :: 0 <= i < |CombustionTable()| && CombustionTable()[i] == r.value;
    r
  }

  /** When some matching row carries exactly the requested mixture ratio,
      the lookup returns a row with that ratio. */
  lemma LookupExactRatio(table: seq<CombustionData>, oxidizer: string, fuel: string, row: CombustionData)
    requires row in table && PairMatches(row, oxidizer, fuel)
    ensures var r := Lookup(table, oxidizer, fuel, Some(row.mixtureRatio));
            r.Ok? && r.value.mixtureRatio == row.mixtureRatio
  {
    var r := Lookup(table, oxidizer, fuel, Some(row.mixtureRatio));
    assert r.Ok?;
    assert Abs(r.value.mixtureRatio - row.mixtureRatio) <= Abs(row.mixtureRatio - row.mixtureRatio);
  }

  /** Asking for N2O/ethanol, in any letter case, at O/F 4 returns the
      O/F 4 row. */
  lemma LookupAtMixtureRatio(oxidizer: string, fuel: string)
    requires Lower(oxidizer) == Lower("n2o") && Lower(fuel) == Lower("ethanol")
    ensures var r := LookupCombustion(oxidizer, fuel, Some(4.0));
            r.Ok? && r.value.mixtureRatio == 4.0
  {
    var t := CombustionTable();
    assert PairMatches(t[1], oxidizer, fuel);
    LookupExactRatio(t, oxidizer, fuel, t[1]);
  }

  /** Without a mixture ratio, N2O/ethanol (in any letter case) returns a
      row at least as good as the c* = 1550 row, with gamma above 1 and a
      chamber temperature above 2000 K. */
  lemma LookupBestCStar(oxidizer: string, fuel: string)
    requires Lower(oxidizer) == Lower("n2o") && Lower(fuel) == Lower("ethanol")
    ensures var r := LookupCombustion(oxidizer, fuel, None);
            r.Ok? && r.value.cStar >= 1550.0 && r.value.gamma > 1.0 && r.value.chamberTemperature > 2000.0
  {
    var t := CombustionTable();
    var row := t[1];
    assert PairMatches(row, oxidizer, fuel);
    assert row in t;
    var r := Lookup(t, oxidizer, fuel, None);
    assert r.Ok?;
    assert row.cStar <= r.value.cStar;
  }

  /** A pair whose oxidizer is not in the table raises KeyError. */
  lemma LookupUnknownPair(oxidizer: string, fuel: string, mixtureRatio: Option<real>)
    requires Lower(oxidizer) == Lower("xenon")
    ensures LookupCombustion(oxidizer, fuel, mixtureRatio) == Fail(KeyError)
  {
    var t := CombustionTable();
    LowerMeaning(oxidizer);
    LowerMeaning("xenon");
    assert |oxidizer| == 5;
    forall d | d in t ensures !PairMatches(d, oxidizer, fuel) {
      var i :| 0 <= i < |t| && t[i] == d;
      OxidizerNameLength(i);
      LowerMeaning(d.oxidizer);
    }
  }

  /** Every oxidizer name in the table has three letters ("n2o", "lox"). */
  lemma OxidizerNameLength(i: int)
    requires 0 <= i < |CombustionTable()|
    ensures |CombustionTable()[i].oxidizer| == 3
  {
  }

  /** Specific impulse Isp = c* . CF / g0 [s]. */
  function SpecificImpulse(cStar: real, cf: real): (isp: real)
    ensures isp * G0 == cStar * cf
  {
    cStar * cf / G0
  }

  /** Effective exhaust velocity ve = c* . CF [m/s]. */
  function ExhaustVelocity(cStar: real, cf: real): (ve: real)
    ensures cStar > 0.0 && cf > 0.0 ==> ve > 0.0
  {
    cStar * cf
  }

  /** Isp is the exhaust velocity measured in units of g0. */
  lemma ImpulseIsVelocityOverG0(cStar: real, cf: real)
    ensures SpecificImpulse(cStar, cf) * G0 == ExhaustVelocity(cStar, cf)
  {
  }

  /** Throat area from F = CF . Pc . At. */
  function ThroatArea(thrust: real, pc: real, cf: real): (at: real)
    requires cf * pc != 0.0
    ensures at * (cf * pc) == thrust
  {
    thrust / (cf * pc)
  }

  /** Total propellant mass flow mdot = Pc . At / c*. */
  function MassFlowRate(pc: real, at: real, cStar: real): (mdot: real)
    requires cStar != 0.0
    ensures mdot * cStar == pc * at
  {
    pc * at / cStar
  }

  /** Sizing the throat for a thrust and then taking its mass flow gives
      F / (CF . c*), independent of the chamber pressure. */
  lemma MassFlowForThrust(thrust: real, pc: real, cf: real, cStar: real)
    requires cf != 0.0 && pc != 0.0 && cStar != 0.0
    ensures cf * pc != 0.0
    ensures MassFlowRate(pc, ThroatArea(thrust, pc, cf), cStar) * (cf * cStar) == thrust
  {
    assert cf * pc != 0.0;
    var at := ThroatArea(thrust, pc, cf);
    var mdot := MassFlowRate(pc, at, cStar);
    calc {
      mdot * (cf * cStar);
      (mdot * cStar) * cf;
      (pc * at) * cf;
      at * (cf * pc);
      thrust;
    }
  }

  /** The guard and bracket of the area-Mach inversion. An area ratio below 1
      is a ValueError. Otherwise the bracketing solver runs on the
      supersonic bracket [1, 50] or the subsonic bracket [1e-6, 1]; the
      residual A(M)/A* - areaRatio at the bracket's two ends is given as
      `fLow` and `fHigh`, and the solver raises ValueError when both have
      the same strict sign. The root it finds is given as its position `t`
      in the bracket. */
  function MachFromAreaRatio(areaRatio: real, supersonic: bool, fLow: real, fHigh: real, t: real)
    : (r: Outcome<real>)
    requires 0.0 <= t <= 1.0
    ensures r.Fail? <==> areaRatio < 1.0 || fLow * fHigh > 0.0
    ensures r.Fail? ==> r.error == ValueError
    ensures r.Ok? && supersonic ==> 1.0 <= r.value <= 50.0
    ensures r.Ok? && !supersonic ==> 0.000001 <= r.value <= 1.0
    ensures r.Ok? && t == 0.0 ==> r.value == (if supersonic then 1.0 else 0.000001)
    ensures r.Ok? && t == 1.0 ==> r.value == (if supersonic then 50.0 else 1.0)
  {
    if areaRatio < 1.0 then Fail(ValueError)
    else if fLow * fHigh > 0.0 then Fail(ValueError)
    else if supersonic then Ok(1.0 + t * 49.0)
    else Ok(0.000001 + t * (1.0 - 0.000001))
  }
}
