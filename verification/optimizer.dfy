/** Design optimisation bookkeeping (resa_pro/optimization/optimizer.py):
    design variables and their normalisation, objectives and constraints,
    the penalised cost of one evaluated design point, the argument guards
    and best-point selection of `optimize`, and Latin-hypercube placement.
    The SciPy search supplies the sequence of trial vectors it evaluates and
    the random generator supplies permutations and uniform draws; both are
    inputs here. */
module Optimizer {
  import opened Common
  import opened RealArith

  // ---------------------------------------------------------------------
  // Design variables
  // ---------------------------------------------------------------------

  datatype DesignVariable = DesignVariable(name: string, lower: real, upper: real, initial: real, unit: string)

  /** The dataclass constructor with its `__post_init__`: a missing initial
      value becomes the midpoint of the bounds. */
  function NewDesignVariable(name: string, lower: real, upper: real, initial: Option<real>, unit: string)
    : (v: DesignVariable)
    ensures v.name == name && v.lower == lower && v.upper == upper && v.unit == unit
    ensures initial.Some? ==> v.initial == initial.value
    ensures initial.None? ==> v.initial - lower == upper - v.initial
    ensures initial.None? && lower <= upper ==> lower <= v.initial <= upper
  {
    DesignVariable(name, lower, upper, if initial.Some? then initial.value else 0.5 * (lower + upper), unit)
  }

  function Span(v: DesignVariable): real
  {
    v.upper - v.lower
  }

  /** `normalise`: the position of a value within the bounds, 0 at the
      lower and 1 at the upper bound; a degenerate or inverted range maps
      everything to 0. */
  function Normalise(v: DesignVariable, value: real): (t: real)
    ensures Span(v) <= 0.0 ==> t == 0.0
    ensures Span(v) > 0.0 ==> t * Span(v) == value - v.lower
    ensures Span(v) > 0.0 && v.lower <= value <= v.upper ==> 0.0 <= t <= 1.0
  {
    var span := v.upper - v.lower;
    if span > 0.0 then
      if v.lower <= value <= v.upper then
        DivPosMono(0.0, value - v.lower, span);
        DivPosMono(value - v.lower, span, span);
        (value - v.lower) / span
      else (value - v.lower) / span
    else 0.0
  }

  /** `denormalise`: the point at fraction t of the range; fractions in
      [0, 1] of a proper range stay within the bounds. */
  function Denormalise(v: DesignVariable, t: real): (x: real)
    ensures x - v.lower == t * Span(v)
    ensures v.lower <= v.upper && 0.0 <= t <= 1.0 ==> v.lower <= x <= v.upper
  {
    var span := v.upper - v.lower;
    if v.lower <= v.upper && 0.0 <= t <= 1.0 then
      MulLeMono(t, 1.0, span);
      v.lower + Mul(t, span)
    else v.lower + Mul(t, span)
  }

  /** The bounds normalise to the ends of the unit interval. */
  lemma NormaliseEnds(v: DesignVariable)
    requires Span(v) > 0.0
    ensures Normalise(v, v.lower) == 0.0 && Normalise(v, v.upper) == 1.0
  {
    var span := Span(v);
    var t0 := Normalise(v, v.lower);
    var t1 := Normalise(v, v.upper);
    assert t0 * span == 0.0 * span;
    FactorCancel(t0, 0.0, span);
    assert t1 * span == 1.0 * span;
    FactorCancel(t1, 1.0, span);
  }

  /** Normalising and mapping back returns the original value. */
  lemma DenormaliseNormalise(v: DesignVariable, value: real)
    requires Span(v) > 0.0
    ensures Denormalise(v, Normalise(v, value)) == value
  {
  }

  /** Mapping a fraction into the range and normalising returns it. */
  lemma NormaliseDenormalise(v: DesignVariable, t: real)
    requires Span(v) > 0.0
    ensures Normalise(v, Denormalise(v, t)) == t
  {
    assert Normalise(v, Denormalise(v, t)) * Span(v) == t * Span(v);
    FactorCancel(Normalise(v, Denormalise(v, t)), t, Span(v));
  }

  // ---------------------------------------------------------------------
  // Objectives and constraints
  // ---------------------------------------------------------------------

  datatype Objective = Objective(name: string, key: string, direction: string, weight: real, target: Option<real>)

  /** `Objective.sign`: +1 for "minimize" and -1 for any other direction. */
  function Sign(o: Objective): (s: real)
    ensures s == 1.0 <==> o.direction == "minimize"
    ensures s == -1.0 <==> o.direction != "minimize"
  {
    if o.direction == "minimize" then 1.0 else -1.0
  }

  datatype Constraint = Constraint(name: string, key: string, lower: Option<real>, upper: Option<real>)

  /** `is_satisfied`: no present bound is crossed. */
  predicate IsSatisfied(c: Constraint, value: real)
  {
    !(c.lower.Some? && value < c.lower.value) && !(c.upper.Some? && value > c.upper.value)
  }

  /** `violation`: the shortfall below the lower bound plus the excess over
      the upper bound, each counted only when that bound is present. It is
      never negative and vanishes exactly when the constraint holds. */
  function Violation(c: Constraint, value: real): (v: real)
    ensures v >= 0.0
    ensures v == 0.0 <==> IsSatisfied(c, value)
    ensures c.lower.Some? && value < c.lower.value && !(c.upper.Some? && value > c.upper.value)
            ==> v == c.lower.value - value
    ensures c.upper.Some? && value > c.upper.value && !(c.lower.Some? && value < c.lower.value)
            ==> v == value - c.upper.value
  {
    var below := if c.lower.Some? then Max(0.0, c.lower.value - value) else 0.0;
    var above := if c.upper.Some? then Max(0.0, value - c.upper.value) else 0.0;
    below + above
  }

  /** A violated lower bound is violated more the further below it the
      value lies, as long as the upper bound is not crossed. */
  lemma ViolationGrowsBelowLower(c: Constraint, a: real, b: real)
    requires c.lower.Some? && a < b <= c.lower.value
    requires c.upper.None? || b <= c.upper.value
    ensures Violation(c, a) > Violation(c, b)
  {
  }

  // ---------------------------------------------------------------------
  // Evaluated points
  // ---------------------------------------------------------------------

  datatype DesignPoint = DesignPoint(variables: map<string, real>, objectives: map<string, real>,
                                     constraints: map<string, real>, feasible: bool,
                                     rawResult: map<string, real>)

  datatype OptimizationResult = OptimizationResult(best: Option<DesignPoint>, allPoints: seq<DesignPoint>,
                                                   nEvaluations: nat, converged: bool, message: string)

  /** The user's evaluation function from variable values to results. */
  type EvalFunction = map<string, real> -> map<string, real>

  /** `raw.get(key, 0.0)`. */
  function Get(raw: map<string, real>, key: string): real
  {
    if key in raw then raw[key] else 0.0
  }

  /** A dict built by assigning `vals[i]` to `keys[i]` in order, so a
      repeated key keeps the value of its last occurrence. */
  function Assign(keys: seq<string>, vals: seq<real>): map<string, real>
    requires |keys| == |vals|
  {
    if |keys| == 0 then map[]
    else
      var n := |keys| - 1;
      Assign(keys[..n], vals[..n])[keys[n] := vals[n]]
  }

  /** The dict built has exactly the keys assigned. */
  lemma {:induction false} AssignKeys(keys: seq<string>, vals: seq<real>)
    requires |keys| == |vals|
    ensures forall k :: k in Assign(keys, vals) <==> k in keys
    decreases |keys|
  {
    if |keys| > 0 {
      var n := |keys| - 1;
      assert keys == keys[..n] + [keys[n]];
      AssignKeys(keys[..n], vals[..n]);
    }
  }

  /** A key not assigned again later keeps the value assigned at i. */
  lemma {:induction false} AssignLast(keys: seq<string>, vals: seq<real>, i: int)
    requires |keys| == |vals| && 0 <= i < |keys|
    requires forall k :: i < k < |keys| ==> keys[k] != keys[i]
    ensures keys[i] in Assign(keys, vals) && Assign(keys, vals)[keys[i]] == vals[i]
    decreases |keys|
  {
    var n := |keys| - 1;
    if i < n {
      assert keys[..n][i] == keys[i];
      assert keys[n] != keys[i];
      AssignLast(keys[..n], vals[..n], i);
    }
  }

  function Names(vars: seq<DesignVariable>): (ns: seq<string>)
    ensures |ns| == |vars| && forall i :: 0 <= i < |vars| ==> ns[i] == vars[i].name
  {
    seq(|vars|, i requires 0 <= i < |vars| => vars[i].name)
  }

  predicate DistinctNames(vars: seq<DesignVariable>)
  {
    forall i, j :: 0 <= i < j < |vars| ==> vars[i].name != vars[j].name
  }

  /** `_array_to_dict`: each variable's name bound to its coordinate. */
  function ArrayToDict(vars: seq<DesignVariable>, x: seq<real>): map<string, real>
    requires |x| == |vars|
  {
    Assign(Names(vars), x)
  }

  /** The dict holds exactly the variable names, and with distinct names
      each is bound to its own coordinate. */
  lemma ArrayToDictMeaning(vars: seq<DesignVariable>, x: seq<real>)
    requires |x| == |vars|
    ensures forall v :: v in vars ==> v.name in ArrayToDict(vars, x)
    ensures forall k :: k in ArrayToDict(vars, x) ==> exists i :: 0 <= i < |vars| && vars[i].name == k
    ensures DistinctNames(vars) ==> forall i :: 0 <= i < |vars| ==> ArrayToDict(vars, x)[vars[i].name] == x[i]
  {
    var d := ArrayToDict(vars, x);
    AssignKeys(Names(vars), x);
    forall i | 0 <= i < |vars|
      ensures vars[i].name in d && (DistinctNames(vars) ==> d[vars[i].name] == x[i])
    {
      assert Names(vars)[i] == vars[i].name;
      if DistinctNames(vars) {
        AssignLast(Names(vars), x, i);
      }
    }
  }

  predicate HasAllNames(vars: seq<DesignVariable>, p: DesignPoint)
  {
    forall v :: v in vars ==> v.name in p.variables
  }

  /** `_dict_to_array`: the variables' values read back in order. */
  function DictToArray(vars: seq<DesignVariable>, d: map<string, real>): (x: seq<real>)
    requires forall v :: v in vars ==> v.name in d
    ensures |x| == |vars|
  {
    seq(|vars|, i requires 0 <= i < |vars| => d[vars[i].name])
  }

  /** With distinct names the dict and array conversions are inverse. */
  lemma DictArrayRoundTrip(vars: seq<DesignVariable>, x: seq<real>)
    requires |x| == |vars| && DistinctNames(vars)
    ensures (forall v :: v in vars ==> v.name in ArrayToDict(vars, x)) && DictToArray(vars, ArrayToDict(vars, x)) == x
  {
    ArrayToDictMeaning(vars, x);
  }

  /** One objective's contribution: the weighted distance from its target,
      or the weighted value signed so that smaller is better. */
  function ObjectiveTerm(o: Objective, raw: map<string, real>): (t: real)
    ensures o.target.None? && o.direction == "minimize" ==> t == o.weight * Get(raw, o.key)
    ensures o.target.None? && o.direction != "minimize" ==> t == -(o.weight * Get(raw, o.key))
    ensures o.target.Some? ==> t == o.weight * Abs(Get(raw, o.key) - o.target.value)
    ensures o.target.Some? && o.weight >= 0.0 ==> t >= 0.0
    ensures o.target.Some? && Get(raw, o.key) == o.target.value ==> t == 0.0
  {
    var val := Get(raw, o.key);
    if o.target.Some? then
      Mul(o.weight, Abs(val - o.target.value))
    else Mul(Mul(o.weight, Sign(o)), val)
  }

  /** A maximised objective of the negated result scores exactly as the
      minimised objective of the result. */
  lemma MaximizeNegatedIsMinimize(o1: Objective, o2: Objective, raw: map<string, real>)
    requires o1.target.None? && o2.target.None? && o1.weight == o2.weight
    requires o1.direction == "minimize" && o2.direction == "maximize"
    requires Get(raw, o2.key) == -Get(raw, o1.key)
    ensures ObjectiveTerm(o2, raw) == ObjectiveTerm(o1, raw)
  {
  }

  function ObjectiveCost(objs: seq<Objective>, raw: map<string, real>): real
  {
    if |objs| == 0 then 0.0
    else ObjectiveCost(objs[..|objs| - 1], raw) + ObjectiveTerm(objs[|objs| - 1], raw)
  }

  function PenaltyTerm(c: Constraint, raw: map<string, real>): real
  {
    var viol := Violation(c, Get(raw, c.key));
    if viol > 0.0 then 1000000.0 * viol else 0.0
  }

  function Penalty(cons: seq<Constraint>, raw: map<string, real>): real
  {
    if |cons| == 0 then 0.0
    else Penalty(cons[..|cons| - 1], raw) + PenaltyTerm(cons[|cons| - 1], raw)
  }

  /** The loop's feasibility flag: no constraint reports a violation. */
  predicate NoViolation(cons: seq<Constraint>, raw: map<string, real>)
  {
    |cons| == 0 ||
    (NoViolation(cons[..|cons| - 1], raw) && !(Violation(cons[|cons| - 1], Get(raw, cons[|cons| - 1].key)) > 0.0))
  }

  /** The penalty is never negative and vanishes exactly when no constraint
      is violated. */
  lemma {:induction false} PenaltyZeroIffNoViolation(cons: seq<Constraint>, raw: map<string, real>)
    ensures Penalty(cons, raw) >= 0.0
    ensures Penalty(cons, raw) == 0.0 <==> NoViolation(cons, raw)
    decreases |cons|
  {
    if |cons| > 0 {
      PenaltyZeroIffNoViolation(cons[..|cons| - 1], raw);
    }
  }

  /** Feasibility means every constraint is satisfied by its result value. */
  lemma {:induction false} NoViolationIffAllSatisfied(cons: seq<Constraint>, raw: map<string, real>)
    ensures NoViolation(cons, raw) <==> forall i :: 0 <= i < |cons| ==> IsSatisfied(cons[i], Get(raw, cons[i].key))
    decreases |cons|
  {
    if |cons| > 0 {
      var n := |cons| - 1;
      NoViolationIffAllSatisfied(cons[..n], raw);
      assert forall i :: 0 <= i < n ==> cons[..n][i] == cons[i];
    }
  }

  function ObjectiveNames(objs: seq<Objective>): (ns: seq<string>)
    ensures |ns| == |objs| && forall i :: 0 <= i < |objs| ==> ns[i] == objs[i].name
  {
    seq(|objs|, i requires 0 <= i < |objs| => objs[i].name)
  }

  function ObjectiveResults(objs: seq<Objective>, raw: map<string, real>): (vs: seq<real>)
    ensures |vs| == |objs| && forall i :: 0 <= i < |objs| ==> vs[i] == Get(raw, objs[i].key)
  {
    seq(|objs|, i requires 0 <= i < |objs| => Get(raw, objs[i].key))
  }

  function ConstraintNames(cons: seq<Constraint>): (ns: seq<string>)
    ensures |ns| == |cons| && forall i :: 0 <= i < |cons| ==> ns[i] == cons[i].name
  {
    seq(|cons|, i requires 0 <= i < |cons| => cons[i].name)
  }

  function ConstraintResults(cons: seq<Constraint>, raw: map<string, real>): (vs: seq<real>)
    ensures |vs| == |cons| && forall i :: 0 <= i < |cons| ==> vs[i] == Get(raw, cons[i].key)
  {
    seq(|cons|, i requires 0 <= i < |cons| => Get(raw, cons[i].key))
  }

  /** `obj_values`: each objective's result value under its name. */
  function ObjectiveValues(objs: seq<Objective>, raw: map<string, real>): map<string, real>
  {
    Assign(ObjectiveNames(objs), ObjectiveResults(objs, raw))
  }

  /** `con_values`: each constraint's result value under its name. */
  function ConstraintValues(cons: seq<Constraint>, raw: map<string, real>): map<string, real>
  {
    Assign(ConstraintNames(cons), ConstraintResults(cons, raw))
  }

  /** One more objective adds its term to the cost and its value to the
      record. */
  lemma ScoreStep(objs: seq<Objective>, raw: map<string, real>, names: seq<string>, vals: seq<real>, i: int,
                  cost: real, values: map<string, real>, term: real)
    requires names == ObjectiveNames(objs) && vals == ObjectiveResults(objs, raw) && 0 <= i < |objs|
    requires cost == ObjectiveCost(objs[..i], raw) && values == Assign(names[..i], vals[..i])
    requires term == ObjectiveTerm(objs[i], raw)
    ensures cost + term == ObjectiveCost(objs[..i + 1], raw)
    ensures values[objs[i].name := Get(raw, objs[i].key)] == Assign(names[..i + 1], vals[..i + 1])
  {
    assert objs[..i + 1][..i] == objs[..i];
    assert names[..i + 1][..i] == names[..i];
    assert vals[..i + 1][..i] == vals[..i];
  }

  /** The objective loop of `_evaluate_point`: it accumulates the weighted
      cost and records each objective's value. */
  method ScoreObjectives(objs: seq<Objective>, raw: map<string, real>) returns (cost: real, values: map<string, real>)
    ensures cost == ObjectiveCost(objs, raw)
    ensures values == ObjectiveValues(objs, raw)
  {
    ghost var names := ObjectiveNames(objs);
    ghost var vals := ObjectiveResults(objs, raw);
    values := map[];
    cost := 0.0;
    for i := 0 to |objs|
      invariant cost == ObjectiveCost(objs[..i], raw)
      invariant values == Assign(names[..i], vals[..i])
    {
      var obj := objs[i];
      var val := Get(raw, obj.key);
      var term;
      if obj.target.Some? {
        term := Mul(obj.weight, Abs(val - obj.target.value));
      } else {
        term := Mul(Mul(obj.weight, Sign(obj)), val);
      }
      ScoreStep(objs, raw, names, vals, i, cost, values, term);
      values := values[obj.name := val];
      cost := cost + term;
    }
    assert objs[..|objs|] == objs;
    assert names[..|objs|] == names;
    assert vals[..|objs|] == vals;
  }

  /** The constraint loop of `_evaluate_point`: it accumulates the penalty
      of every violated constraint, clears the feasibility flag on the first
      one, and records each constraint's value. */
  method CheckConstraints(cons: seq<Constraint>, raw: map<string, real>)
    returns (penalty: real, feasible: bool, values: map<string, real>)
    ensures penalty == Penalty(cons, raw)
    ensures feasible == NoViolation(cons, raw)
    ensures values == ConstraintValues(cons, raw)
  {
    var names := ConstraintNames(cons);
    var vals := ConstraintResults(cons, raw);
    values := map[];
    feasible := true;
    penalty := 0.0;
    for i := 0 to |cons|
      invariant penalty == Penalty(cons[..i], raw)
      invariant feasible == NoViolation(cons[..i], raw)
      invariant values == Assign(names[..i], vals[..i])
    {
      var con := cons[i];
      var val := Get(raw, con.key);
      values := values[con.name := val];
      var viol := Violation(con, val);
      if viol > 0.0 {
        feasible := false;
        penalty := penalty + 1000000.0 * viol;
      }
      assert cons[..i + 1][..i] == cons[..i];
      assert names[..i + 1][..i] == names[..i];
      assert vals[..i + 1][..i] == vals[..i];
    }
    assert cons[..|cons|] == cons;
    assert names[..|cons|] == names;
    assert vals[..|cons|] == vals;
  }

  /** The evaluation function's result for the trial vector x. */
  function RawResult(vars: seq<DesignVariable>, x: seq<real>, evalFn: EvalFunction): map<string, real>
    requires |x| == |vars|
  {
    evalFn(ArrayToDict(vars, x))
  }

  /** `_evaluate_point` as a value: the cost and the recorded point of the
      trial vector x. */
  function Evaluate(vars: seq<DesignVariable>, objs: seq<Objective>, cons: seq<Constraint>,
                    x: seq<real>, evalFn: EvalFunction): (real, DesignPoint)
    requires |x| == |vars|
  {
    Assess(objs, cons, ArrayToDict(vars, x), RawResult(vars, x, evalFn))
  }

  /** The cost and point recorded for the variables `varDict` whose
      evaluation gave `raw`. */
  function Assess(objs: seq<Objective>, cons: seq<Constraint>, varDict: map<string, real>, raw: map<string, real>)
    : (real, DesignPoint)
  {
    (ObjectiveCost(objs, raw) + Penalty(cons, raw),
     DesignPoint(varDict, ObjectiveValues(objs, raw), ConstraintValues(cons, raw), NoViolation(cons, raw), raw))
  }

  /** What an evaluation records: the variables by name, the evaluation
      function's result, and the result values by objective and constraint
      name. The point is feasible exactly when every constraint holds; then
      the cost is the objective sum alone, while any violation adds a
      positive penalty. */
  lemma EvaluateMeaning(vars: seq<DesignVariable>, objs: seq<Objective>, cons: seq<Constraint>,
                        x: seq<real>, evalFn: EvalFunction)
    requires |x| == |vars|
    ensures var (cost, p) := Evaluate(vars, objs, cons, x, evalFn);
            p.variables == ArrayToDict(vars, x) && p.rawResult == evalFn(p.variables) &&
            (forall o :: o in objs ==> o.name in p.objectives) &&
            (forall c :: c in cons ==> c.name in p.constraints) &&
            (p.feasible <==> forall i :: 0 <= i < |cons| ==> IsSatisfied(cons[i], Get(p.rawResult, cons[i].key))) &&
            (p.feasible ==> cost == ObjectiveCost(objs, p.rawResult)) &&
            (!p.feasible ==> cost > ObjectiveCost(objs, p.rawResult))
  {
    var raw := RawResult(vars, x, evalFn);
    PenaltyZeroIffNoViolation(cons, raw);
    NoViolationIffAllSatisfied(cons, raw);
    AssignKeys(ObjectiveNames(objs), ObjectiveResults(objs, raw));
    AssignKeys(ConstraintNames(cons), ConstraintResults(cons, raw));
    forall o | o in objs ensures o.name in ObjectiveValues(objs, raw) {
      var i :| 0 <= i < |objs| && objs[i] == o;
      assert ObjectiveNames(objs)[i] == o.name;
    }
    forall c | c in cons ensures c.name in ConstraintValues(cons, raw) {
      var i :| 0 <= i < |cons| && cons[i] == c;
      assert ConstraintNames(cons)[i] == c.name;
    }
  }

  /** The feasible points, in order. */
  function Feasible(ps: seq<DesignPoint>): (fs: seq<DesignPoint>)
    ensures |fs| <= |ps|
    ensures forall p :: p in fs ==> p in ps && p.feasible
    ensures forall p :: p in ps && p.feasible ==> p in fs
  {
    if |ps| == 0 then []
    else
      var n := |ps| - 1;
      var fs' := Feasible(ps[..n]);
      assert forall p :: p in ps ==> p in ps[..n] || p == ps[n];
      if ps[n].feasible then fs' + [ps[n]] else fs'
  }

  /** The re-evaluated cost `optimize` ranks a recorded point by. */
  function Recost(vars: seq<DesignVariable>, objs: seq<Objective>, cons: seq<Constraint>,
                  evalFn: EvalFunction, p: DesignPoint): real
    requires HasAllNames(vars, p)
  {
    Evaluate(vars, objs, cons, DictToArray(vars, p.variables), evalFn).0
  }

  function Recosts(vars: seq<DesignVariable>, objs: seq<Objective>, cons: seq<Constraint>,
                   evalFn: EvalFunction, fs: seq<DesignPoint>): (cs: seq<real>)
    requires forall p :: p in fs ==> HasAllNames(vars, p)
    ensures |cs| == |fs|
    ensures forall k :: 0 <= k < |fs| ==> cs[k] == Recost(vars, objs, cons, evalFn, fs[k])
  {
    seq(|fs|, k requires 0 <= k < |fs| => Recost(vars, objs, cons, evalFn, fs[k]))
  }

  /** Index b holds the first minimum among the first n costs. */
  predicate FirstMinimumOf(costs: seq<real>, n: int, b: int)
  {
    0 <= b < |costs| && n <= |costs| &&
    forall j :: 0 <= j < n ==> costs[b] <= costs[j] && (j < b ==> costs[j] > costs[b])
  }

  /** Index k holds the first minimum of the costs. */
  predicate IsFirstMinimum(costs: seq<real>, k: int)
  {
    FirstMinimumOf(costs, |costs|, k)
  }

  /** The selection loop's step: a strictly smaller cost takes over, an
      equal or larger one leaves the first minimum in place. */
  lemma FirstMinimumStep(costs: seq<real>, k: int, b: int)
    requires 0 <= k < |costs| && 0 <= b < |costs| && (k == 0 || (b < k && FirstMinimumOf(costs, k, b)))
    ensures k == 0 || costs[k] < costs[b] ==> FirstMinimumOf(costs, k + 1, k)
    ensures k > 0 && costs[k] >= costs[b] ==> FirstMinimumOf(costs, k + 1, b)
  {
  }

  /** The first minimum is unique, so the selected point is determined. */
  lemma FirstMinimumUnique(costs: seq<real>, k1: int, k2: int)
    requires IsFirstMinimum(costs, k1) && IsFirstMinimum(costs, k2)
    ensures k1 == k2
  {
    assert costs[k1] <= costs[k2] && costs[k2] <= costs[k1];
  }

  /** The selection rule of `optimize`: the first feasible point of least
      re-evaluated cost; with no feasible point the last evaluated one; with
      nothing evaluated, none. */
  predicate SelectsBest(vars: seq<DesignVariable>, objs: seq<Objective>, cons: seq<Constraint>,
                        evalFn: EvalFunction, ps: seq<DesignPoint>, best: Option<DesignPoint>)
  {
    var fs := Feasible(ps);
    (forall p :: p in fs ==> HasAllNames(vars, p)) &&
    if |fs| > 0 then
      exists k :: 0 <= k < |fs| && IsFirstMinimum(Recosts(vars, objs, cons, evalFn, fs), k) && best == Some(fs[k])
    else if |ps| > 0 then best == Some(ps[|ps| - 1])
    else best.None?
  }

  // ---------------------------------------------------------------------
  // Latin-hypercube placement
  // ---------------------------------------------------------------------

  /** (perm + u) / n, the normalised coordinate of one sample. */
  function LhsValue(p: int, u: real, n: nat): (t: real)
    requires n > 0
    ensures t * n as real == p as real + u
    ensures 0 <= p < n && 0.0 <= u < 1.0 ==> 0.0 <= t < 1.0
  {
    var t := (p as real + u) / n as real;
    DivMulCancel(p as real + u, n as real);
    if 0 <= p < n && 0.0 <= u < 1.0 then
      UnitBounds(p as real + u, n as real, t);
      t
    else t
  }

  /** A t with t * m == b for 0 <= b < m lies in [0, 1). */
  lemma UnitBounds(b: real, m: real, t: real)
    requires m > 0.0 && t * m == b && 0.0 <= b < m
    ensures 0.0 <= t < 1.0
  {
    if t < 0.0 {
      MulPosStrictMono(t, 0.0, m);
      assert false;
    }
    if t >= 1.0 {
      MulNonnegMono(1.0, t, m);
      assert false;
    }
  }

  /** A t with t * m == b for a <= b < c lies in [a / m, c / m). */
  lemma QuotientBounds(a: real, b: real, c: real, m: real, t: real)
    requires m > 0.0 && t * m == b && a <= b < c
    ensures a / m <= t < c / m
  {
    assert t == b / m;
    DivPosMono(a, b, m);
    DivPosStrictMono(b, c, m);
  }

  /** The stratum of a normalised value t: the integer part of n t. */
  function Stratum(t: real, n: nat): int
  {
    (t * n as real).Floor
  }

  /** Each sample lies in the stratum its permutation entry names:
      [p/n, (p+1)/n), i.e. the integer part of n t is p. */
  lemma LhsStratum(p: int, u: real, n: nat)
    requires n > 0 && 0.0 <= u < 1.0
    ensures Stratum(LhsValue(p, u, n), n) == p
    ensures p as real / n as real <= LhsValue(p, u, n) < (p + 1) as real / n as real
  {
    QuotientBounds(p as real, p as real + u, (p + 1) as real, n as real, LhsValue(p, u, n));
  }

  predicate IsPermutation(perm: seq<int>, n: nat)
  {
    |perm| == n && (forall i :: 0 <= i < n ==> 0 <= perm[i] < n) &&
    forall i, j :: 0 <= i < j < n ==> perm[i] != perm[j]
  }

  predicate IsUniformDraw(us: seq<real>)
  {
    forall i :: 0 <= i < |us| ==> 0.0 <= us[i] < 1.0
  }

  /** The Latin property of one column: with a permutation, distinct
      samples fall in distinct strata. */
  lemma LatinColumn(perm: seq<int>, us: seq<real>, n: nat, i1: int, i2: int)
    requires n > 0 && IsPermutation(perm, n) && |us| == n && IsUniformDraw(us)
    requires 0 <= i1 < n && 0 <= i2 < n && i1 != i2
    ensures Stratum(LhsValue(perm[i1], us[i1], n), n) != Stratum(LhsValue(perm[i2], us[i2], n), n)
  {
    LhsStratum(perm[i1], us[i1], n);
    LhsStratum(perm[i2], us[i2], n);
    if i1 < i2 {
      assert perm[i1] != perm[i2];
    } else {
      assert perm[i2] != perm[i1];
    }
  }

  predicate DrawShapes(nVars: nat, n: nat, perms: seq<seq<int>>, uniforms: seq<seq<real>>)
  {
    |perms| == nVars && |uniforms| == nVars &&
    forall j :: 0 <= j < nVars ==> |perms[j]| == n && |uniforms[j]| == n
  }

  /** The design vector of sample i: each coordinate denormalised from its
      column's stratified value. */
  function LhsPoint(vars: seq<DesignVariable>, perms: seq<seq<int>>, uniforms: seq<seq<real>>, n: nat, i: nat)
    : (x: seq<real>)
    requires DrawShapes(|vars|, n, perms, uniforms) && i < n
    ensures |x| == |vars|
  {
    seq(|vars|, j requires 0 <= j < |vars| => Denormalise(vars[j], LhsValue(perms[j][i], uniforms[j][i], n)))
  }

  /** With genuine permutations and uniform draws and proper bounds, every
      sampled variable lies within its bounds. */
  lemma LhsPointWithinBounds(vars: seq<DesignVariable>, perms: seq<seq<int>>, uniforms: seq<seq<real>>,
                             n: nat, i: nat)
    requires DrawShapes(|vars|, n, perms, uniforms) && i < n
    requires forall j :: 0 <= j < |vars| ==> IsPermutation(perms[j], n) && IsUniformDraw(uniforms[j])
    requires forall j :: 0 <= j < |vars| ==> vars[j].lower <= vars[j].upper
    requires DistinctNames(vars)
    ensures forall j :: 0 <= j < |vars| ==>
              vars[j].name in ArrayToDict(vars, LhsPoint(vars, perms, uniforms, n, i)) &&
              vars[j].lower <= ArrayToDict(vars, LhsPoint(vars, perms, uniforms, n, i))[vars[j].name] <= vars[j].upper
  {
    var x := LhsPoint(vars, perms, uniforms, n, i);
    ArrayToDictMeaning(vars, x);
    forall j | 0 <= j < |vars|
      ensures vars[j].lower <= x[j] <= vars[j].upper
    {
      var t := LhsValue(perms[j][i], uniforms[j][i], n);
      assert 0.0 <= t <= 1.0;
    }
  }

  // ---------------------------------------------------------------------
  // The optimiser
  // ---------------------------------------------------------------------

  class DesignOptimizer {
    var variables: seq<DesignVariable>
    var objectives: seq<Objective>
    var constraints: seq<Constraint>

    constructor ()
      ensures variables == [] && objectives == [] && constraints == []
    {
      variables := [];
      objectives := [];
      constraints := [];
    }

    method AddVariable(v: DesignVariable)
      modifies this
      ensures variables == old(variables) + [v]
      ensures objectives == old(objectives) && constraints == old(constraints)
    {
      variables := variables + [v];
    }

    method AddObjective(o: Objective)
      modifies this
      ensures objectives == old(objectives) + [o]
      ensures variables == old(variables) && constraints == old(constraints)
    {
      objectives := objectives + [o];
    }

    method AddConstraint(c: Constraint)
      modifies this
      ensures constraints == old(constraints) + [c]
      ensures variables == old(variables) && objectives == old(objectives)
    {
      constraints := constraints + [c];
    }

    /** `n_variables`: the number of registered design variables. */
    function NVariables(): (n: nat)
      reads this
      ensures n == |variables|
    {
      |variables|
    }

    /** `_evaluate_point`: the two accumulating loops over objectives and
        constraints compute the cost and point of `Evaluate`. */
    method EvaluatePoint(x: seq<real>, evalFn: EvalFunction) returns (cost: real, point: DesignPoint)
      requires |x| == |variables|
      ensures (cost, point) == Evaluate(variables, objectives, constraints, x, evalFn)
      ensures HasAllNames(variables, point)
    {
      var varDict := ArrayToDict(variables, x);
      var raw := RawResult(variables, x, evalFn);
      var objValues, conValues, feasible, penalty;
      cost, objValues := ScoreObjectives(objectives, raw);
      penalty, feasible, conValues := CheckConstraints(constraints, raw);
      point := DesignPoint(varDict, objValues, conValues, feasible, raw);
      cost := cost + penalty;
      assert (cost, point) == Assess(objectives, constraints, varDict, raw);
      ArrayToDictMeaning(variables, x);
    }

    /** `optimize` with the search replaced by the trial vectors it
        evaluates, in order, and its success flag and message. An empty
        variable list is refused first, then an empty objective list;
        otherwise every trial is recorded and the best point selected. */
    method Optimize(evalFn: EvalFunction, trials: seq<seq<real>>, success: bool, message: string)
      returns (r: Outcome<OptimizationResult>)
      requires forall k :: 0 <= k < |trials| ==> |trials[k]| == |variables|
      ensures |variables| == 0 ==> r == Fail(ValueError)
      ensures |variables| != 0 && |objectives| == 0 ==> r == Fail(ValueError)
      ensures |variables| != 0 && |objectives| != 0 ==>
                r.Ok? && r.value.nEvaluations == |r.value.allPoints| == |trials| &&
                r.value.converged == success && r.value.message == message &&
                (forall k :: 0 <= k < |trials| ==>
                   r.value.allPoints[k] == Evaluate(variables, objectives, constraints, trials[k], evalFn).1) &&
                SelectsBest(variables, objectives, constraints, evalFn, r.value.allPoints, r.value.best)
    {
      if |variables| == 0 {
        return Fail(ValueError);
      }
      if |objectives| == 0 {
        return Fail(ValueError);
      }
      var allPoints := EvaluateTrials(evalFn, trials);
      var best := SelectBest(evalFn, allPoints);
      r := Ok(OptimizationResult(best, allPoints, |allPoints|, success, message));
    }

    /** The search's calls of the cost function: every trial is evaluated
        and its point recorded, in order. */
    method EvaluateTrials(evalFn: EvalFunction, trials: seq<seq<real>>) returns (allPoints: seq<DesignPoint>)
      requires forall k :: 0 <= k < |trials| ==> |trials[k]| == |variables|
      ensures |allPoints| == |trials|
      ensures forall k :: 0 <= k < |trials| ==>
                allPoints[k] == Evaluate(variables, objectives, constraints, trials[k], evalFn).1
      ensures forall p :: p in allPoints ==> HasAllNames(variables, p)
    {
      ghost var vars, objs, cons := variables, objectives, constraints;
      ghost var expected := seq(|trials|, m requires 0 <= m < |trials| => Evaluate(vars, objs, cons, trials[m], evalFn).1);
      allPoints := [];
      for k := 0 to |trials|
        invariant |allPoints| == k && forall m :: 0 <= m < k ==> allPoints[m] == expected[m]
        invariant forall p :: p in allPoints ==> HasAllNames(variables, p)
      {
        var _, point := EvaluatePoint(trials[k], evalFn);
        assert point == expected[k];
        allPoints := allPoints + [point];
      }
    }

    /** The selection loop of `optimize`: the feasible points are ranked by
        re-evaluating each, keeping the first strictly smaller cost. */
    method SelectBest(evalFn: EvalFunction, allPoints: seq<DesignPoint>) returns (best: Option<DesignPoint>)
      requires forall p :: p in allPoints ==> HasAllNames(variables, p)
      ensures SelectsBest(variables, objectives, constraints, evalFn, allPoints, best)
    {
      var fs := Feasible(allPoints);
      if |fs| > 0 {
        ghost var costs := Recosts(variables, objectives, constraints, evalFn, fs);
        var bestIdx := 0;
        var bestCost: Extended := PosInf;
        for k := 0 to |fs|
          invariant 0 <= bestIdx < |fs|
          invariant k == 0 ==> bestCost == PosInf
          invariant k > 0 ==> bestIdx < k && bestCost == Finite(costs[bestIdx]) && FirstMinimumOf(costs, k, bestIdx)
        {
          var c, _ := EvaluatePoint(DictToArray(variables, fs[k].variables), evalFn);
          assert c == costs[k];
          FirstMinimumStep(costs, k, bestIdx);
          if bestCost.PosInf? || c < bestCost.value {
            bestCost := Finite(c);
            bestIdx := k;
          }
        }
        assert IsFirstMinimum(costs, bestIdx);
        best := Some(fs[bestIdx]);
      } else if |allPoints| > 0 {
        best := Some(allPoints[|allPoints| - 1]);
      } else {
        best := None;
      }
    }

    /** `doe_latin_hypercube` with the permutations and uniform draws given:
        the stratified matrix is filled column by column, then each row is
        denormalised and evaluated in order. */
    method DoeLatinHypercube(evalFn: EvalFunction, nSamples: nat, perms: seq<seq<int>>, uniforms: seq<seq<real>>)
      returns (points: seq<DesignPoint>)
      requires DrawShapes(|variables|, nSamples, perms, uniforms)
      ensures |points| == nSamples
      ensures forall i :: 0 <= i < nSamples ==>
                points[i] == Evaluate(variables, objectives, constraints,
                                      LhsPoint(variables, perms, uniforms, nSamples, i), evalFn).1
    {
      var lhs := FillLhs(nSamples, |variables|, perms, uniforms);
      points := EvaluateRows(evalFn, nSamples, perms, uniforms, lhs);
    }

    /** The matrix loop of `doe_latin_hypercube`: entry (i, j) is the
        stratified value of sample i in column j. */
    static method FillLhs(nSamples: nat, nVars: nat, perms: seq<seq<int>>, uniforms: seq<seq<real>>)
      returns (lhs: array2<real>)
      requires DrawShapes(nVars, nSamples, perms, uniforms)
      ensures fresh(lhs) && lhs.Length0 == nSamples && lhs.Length1 == nVars
      ensures forall i, j :: 0 <= i < nSamples && 0 <= j < nVars ==>
                lhs[i, j] == LhsValue(perms[j][i], uniforms[j][i], nSamples)
    {
      lhs := new real[nSamples, nVars];
      for j := 0 to nVars
        invariant forall i, j' :: 0 <= i < nSamples && 0 <= j' < j ==>
                    lhs[i, j'] == LhsValue(perms[j'][i], uniforms[j'][i], nSamples)
      {
        for i := 0 to nSamples
          invariant forall i', j' :: 0 <= i' < nSamples && 0 <= j' < j ==>
                      lhs[i', j'] == LhsValue(perms[j'][i'], uniforms[j'][i'], nSamples)
          invariant forall i' :: 0 <= i' < i ==> lhs[i', j] == LhsValue(perms[j][i'], uniforms[j][i'], nSamples)
        {
          lhs[i, j] := LhsValue(perms[j][i], uniforms[j][i], nSamples);
        }
      }
    }

    /** The evaluation loop of `doe_latin_hypercube`: each row of the
        matrix is denormalised and evaluated, in order. */
    method EvaluateRows(evalFn: EvalFunction, nSamples: nat, perms: seq<seq<int>>, uniforms: seq<seq<real>>,
                        lhs: array2<real>)
      returns (points: seq<DesignPoint>)
      requires DrawShapes(|variables|, nSamples, perms, uniforms)
      requires lhs.Length0 == nSamples && lhs.Length1 == |variables|
      requires forall i, j :: 0 <= i < nSamples && 0 <= j < |variables| ==>
                 lhs[i, j] == LhsValue(perms[j][i], uniforms[j][i], nSamples)
      ensures |points| == nSamples
      ensures forall i :: 0 <= i < nSamples ==>
                points[i] == Evaluate(variables, objectives, constraints,
                                      LhsPoint(variables, perms, uniforms, nSamples, i), evalFn).1
    {
      var vars := variables;
      ghost var objs, cons := objectives, constraints;
      ghost var expected := seq(nSamples, i requires 0 <= i < nSamples =>
                                  Evaluate(vars, objs, cons, LhsPoint(vars, perms, uniforms, nSamples, i), evalFn).1);
      points := [];
      for i := 0 to nSamples
        invariant |points| == i && forall m :: 0 <= m < i ==> points[m] == expected[m]
      {
        var x := seq(|vars|, j requires 0 <= j < |vars| reads lhs => Denormalise(vars[j], lhs[i, j]));
        assert x == LhsPoint(vars, perms, uniforms, nSamples, i);
        var _, point := EvaluatePoint(x, evalFn);
        assert point == expected[i];
        points := points + [point];
      }
    }
  }
}
