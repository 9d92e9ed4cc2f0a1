/** Design-rule checking (resa_pro/utils/validation.py): a collector of
    severity-tagged messages, the positive and range validators, and the
    physical-reasonableness rules for a chamber design given as a dictionary
    of named values. Message texts keep their fixed wording; the numbers the
    source formats into them are not part of the model. */
module Validation {

  datatype Severity = INFO | WARNING | ERROR

  datatype ValidationMessage = ValidationMessage(severity: Severity, parameter: string, message: string)

  /** The messages of one severity, in order (the list comprehensions
      behind `errors` and `warnings`). */
  function OfSeverity(ms: seq<ValidationMessage>, s: Severity): (r: seq<ValidationMessage>)
    ensures |r| <= |ms|
  {
    if |ms| == 0 then []
    else
      var n := |ms| - 1;
      OfSeverity(ms[..n], s) + (if ms[n].severity == s then [ms[n]] else [])
  }

  /** The filter keeps exactly the messages of that severity. */
  lemma {:induction false} OfSeverityMembers(ms: seq<ValidationMessage>, s: Severity)
    ensures forall m :: m in OfSeverity(ms, s) <==> m in ms && m.severity == s
    decreases |ms|
  {
    if |ms| > 0 {
      var n := |ms| - 1;
      OfSeverityMembers(ms[..n], s);
      assert ms == ms[..n] + [ms[n]];
    }
  }

  /** Filtering distributes over concatenation, so appended messages of a
      severity come after the earlier ones: the filter keeps insertion
      order. */
  lemma {:induction false} OfSeverityAppend(a: seq<ValidationMessage>, b: seq<ValidationMessage>, s: Severity)
    ensures OfSeverity(a + b, s) == OfSeverity(a, s) + OfSeverity(b, s)
    decreases |b|
  {
    if |b| == 0 {
      assert a + b == a;
    } else {
      var n := |b| - 1;
      assert (a + b)[..|a + b| - 1] == a + b[..n];
      assert (a + b)[|a + b| - 1] == b[n];
      OfSeverityAppend(a, b[..n], s);
    }
  }

  /** Some message has severity s. */
  predicate Has(ms: seq<ValidationMessage>, s: Severity)
  {
    exists i :: 0 <= i < |ms| && ms[i].severity == s
  }

  /** The filter is empty exactly when no message has that severity. */
  lemma OfSeverityEmpty(ms: seq<ValidationMessage>, s: Severity)
    ensures OfSeverity(ms, s) == [] <==> !Has(ms, s)
  {
    OfSeverityMembers(ms, s);
    if Has(ms, s) {
      var i :| 0 <= i < |ms| && ms[i].severity == s;
      assert ms[i] in OfSeverity(ms, s);
    }
  }

  lemma HasAppend(a: seq<ValidationMessage>, b: seq<ValidationMessage>, s: Severity)
    ensures Has(a + b, s) <==> Has(a, s) || Has(b, s)
  {
    if Has(a + b, s) {
      var i :| 0 <= i < |a + b| && (a + b)[i].severity == s;
      if i >= |a| {
        assert b[i - |a|].severity == s;
      }
    }
    if Has(a, s) {
      var i :| 0 <= i < |a| && a[i].severity == s;
      assert (a + b)[i] == a[i];
    }
    if Has(b, s) {
      var i :| 0 <= i < |b| && b[i].severity == s;
      assert (a + b)[|a| + i] == b[i];
    }
  }

  class ValidationResult {
    var messages: seq<ValidationMessage>

    constructor ()
      ensures messages == []
    {
      messages := [];
    }

    /** `is_valid`: no message is an error. */
    function IsValid(): (b: bool)
      reads this
      ensures b <==> Errors() == []
      ensures b <==> !Has(messages, ERROR)
    {
      OfSeverityEmpty(messages, ERROR);
      assert Has(messages, ERROR) ==> exists m :: m in messages && m.severity == ERROR;
      forall m :: m in messages ==> m.severity != ERROR
    }

    /** `has_warnings`: some message is a warning. */
    function HasWarnings(): (b: bool)
      reads this
      ensures b <==> Warnings() != []
      ensures b <==> Has(messages, WARNING)
    {
      OfSeverityEmpty(messages, WARNING);
      assert Has(messages, WARNING) ==> exists m :: m in messages && m.severity == WARNING;
      exists m :: m in messages && m.severity == WARNING
    }

    /** `errors`: the messages of that severity, in insertion order. */
    function Errors(): (ms: seq<ValidationMessage>)
      reads this
      ensures |ms| <= |messages|
      ensures forall m :: m in ms <==> m in messages && m.severity == ERROR
    {
      OfSeverityMembers(messages, ERROR);
      OfSeverity(messages, ERROR)
    }

    /** `warnings`: the messages of that severity, in insertion order. */
    function Warnings(): (ms: seq<ValidationMessage>)
      reads this
      ensures |ms| <= |messages|
      ensures forall m :: m in ms <==> m in messages && m.severity == WARNING
    {
      OfSeverityMembers(messages, WARNING);
      OfSeverity(messages, WARNING)
    }

    /** `add`: exactly one message appended at the end. */
    method Add(severity: Severity, parameter: string, message: string)
      modifies this
      ensures messages == old(messages) + [ValidationMessage(severity, parameter, message)]
    {
      messages := messages + [ValidationMessage(severity, parameter, message)];
    }

    method Error(parameter: string, message: string)
      modifies this
      ensures messages == old(messages) + [ValidationMessage(ERROR, parameter, message)]
    {
      Add(ERROR, parameter, message);
    }

    method Warning(parameter: string, message: string)
      modifies this
      ensures messages == old(messages) + [ValidationMessage(WARNING, parameter, message)]
    {
      Add(WARNING, parameter, message);
    }

    method Info(parameter: string, message: string)
      modifies this
      ensures messages == old(messages) + [ValidationMessage(INFO, parameter, message)]
    {
      Add(INFO, parameter, message);
    }

    /** `merge`: the other result's messages appended in order (merging a
        result into itself doubles its list, as `list.extend` does). */
    method Merge(other: ValidationResult)
      modifies this
      ensures messages == old(messages) + old(other.messages)
    {
      messages := messages + other.messages;
    }
  }

  /** A merged result is valid exactly when both parts were, and warns
      exactly when either part did. */
  lemma MergeValidity(a: seq<ValidationMessage>, b: seq<ValidationMessage>)
    ensures OfSeverity(a + b, ERROR) == [] <==> OfSeverity(a, ERROR) == [] && OfSeverity(b, ERROR) == []
    ensures OfSeverity(a + b, WARNING) != [] <==> OfSeverity(a, WARNING) != [] || OfSeverity(b, WARNING) != []
  {
    OfSeverityAppend(a, b, ERROR);
    OfSeverityAppend(a, b, WARNING);
  }

  // ---------------------------------------------------------------------
  // Validators
  // ---------------------------------------------------------------------

  /** The message `validate_positive` adds: one error iff value <= 0. */
  function PositiveCheck(name: string, value: real): (ms: seq<ValidationMessage>)
    ensures |ms| <= 1
    ensures ms != [] <==> value <= 0.0
    ensures forall m :: m in ms ==> m.severity == ERROR && m.parameter == name
    ensures forall s :: Has(ms, s) <==> s == ERROR && value <= 0.0
  {
    if value <= 0.0 then
      var ms := [ValidationMessage(ERROR, name, name + " must be positive")];
      assert ms[0].severity == ERROR;
      ms
    else []
  }

  /** The message `validate_range` adds: one at the given severity iff the
      value lies outside [low, high]. */
  function RangeCheck(name: string, value: real, low: real, high: real, severity: Severity)
    : (ms: seq<ValidationMessage>)
    ensures |ms| <= 1
    ensures ms != [] <==> !(low <= value <= high)
    ensures forall m :: m in ms ==> m.severity == severity && m.parameter == name
    ensures forall s :: Has(ms, s) <==> s == severity && !(low <= value <= high)
  {
    if value < low || value > high then
      var ms := [ValidationMessage(severity, name, name + " is outside the allowed range")];
      assert ms[0].severity == severity;
      ms
    else []
  }

  method ValidatePositive(name: string, value: real, result: ValidationResult)
    modifies result
    ensures result.messages == old(result.messages) + PositiveCheck(name, value)
  {
    if value <= 0.0 {
      result.Error(name, name + " must be positive");
    }
  }

  method ValidateRange(name: string, value: real, low: real, high: real, result: ValidationResult,
                       severity: Severity)
    modifies result
    ensures result.messages == old(result.messages) + RangeCheck(name, value, low, high, severity)
  {
    if value < low || value > high {
      result.Add(severity, name, name + " is outside the allowed range");
    }
  }

  // ---------------------------------------------------------------------
  // Chamber design rules
  // ---------------------------------------------------------------------

  type Design = map<string, real>

  const MAX_CHAMBER_PRESSURE: real := 30000000.0
  const MIN_THROAT_DIAMETER: real := 0.001
  const MAX_CONTRACTION_RATIO: real := 10.0
  const MIN_L_STAR: real := 0.2
  const MAX_L_STAR: real := 5.0
  const MAX_EXPANSION_RATIO: real := 300.0

  function Warn(parameter: string, message: string, c: bool): (ms: seq<ValidationMessage>)
    ensures forall s :: Has(ms, s) <==> s == WARNING && c
  {
    if c then
      var ms := [ValidationMessage(WARNING, parameter, message)];
      assert ms[0].severity == WARNING;
      ms
    else []
  }

  function Err(parameter: string, message: string, c: bool): (ms: seq<ValidationMessage>)
    ensures forall s :: Has(ms, s) <==> s == ERROR && c
  {
    if c then
      var ms := [ValidationMessage(ERROR, parameter, message)];
      assert ms[0].severity == ERROR;
      ms
    else []
  }

  function PressureChecks(d: Design): (ms: seq<ValidationMessage>)
    ensures Has(ms, ERROR) <==> "chamber_pressure" in d && d["chamber_pressure"] <= 0.0
    ensures Has(ms, WARNING) <==> "chamber_pressure" in d && d["chamber_pressure"] > MAX_CHAMBER_PRESSURE
  {
    if "chamber_pressure" in d then
      var pc := d["chamber_pressure"];
      var a := PositiveCheck("chamber_pressure", pc);
      var b := Warn("chamber_pressure", "Chamber pressure is very high", pc > MAX_CHAMBER_PRESSURE);
      HasAppend(a, b, ERROR);
      HasAppend(a, b, WARNING);
      a + b
    else []
  }

  function ThrustChecks(d: Design): (ms: seq<ValidationMessage>)
    ensures Has(ms, ERROR) <==> "thrust" in d && d["thrust"] <= 0.0
    ensures !Has(ms, WARNING)
  {
    if "thrust" in d then PositiveCheck("thrust", d["thrust"]) else []
  }

  function ThroatChecks(d: Design): (ms: seq<ValidationMessage>)
    ensures Has(ms, ERROR) <==> "throat_diameter" in d && d["throat_diameter"] <= 0.0
    ensures Has(ms, WARNING) <==> "throat_diameter" in d && d["throat_diameter"] < MIN_THROAT_DIAMETER
  {
    if "throat_diameter" in d then
      var dt := d["throat_diameter"];
      var a := PositiveCheck("throat_diameter", dt);
      var b := Warn("throat_diameter", "Throat diameter is very small", dt < MIN_THROAT_DIAMETER);
      HasAppend(a, b, ERROR);
      HasAppend(a, b, WARNING);
      a + b
    else []
  }

  function ContractionChecks(d: Design): (ms: seq<ValidationMessage>)
    ensures Has(ms, ERROR) <==> "contraction_ratio" in d && d["contraction_ratio"] < 1.0
    ensures Has(ms, WARNING) <==> "contraction_ratio" in d && d["contraction_ratio"] > MAX_CONTRACTION_RATIO
  {
    if "contraction_ratio" in d then
      var cr := d["contraction_ratio"];
      var a := Err("contraction_ratio", "Contraction ratio must be >= 1.0", cr < 1.0);
      var b := Warn("contraction_ratio", "Contraction ratio is unusually high", cr > MAX_CONTRACTION_RATIO);
      HasAppend(a, b, ERROR);
      HasAppend(a, b, WARNING);
      a + b
    else []
  }

  function LStarChecks(d: Design): (ms: seq<ValidationMessage>)
    ensures Has(ms, ERROR) <==> "l_star" in d && d["l_star"] <= 0.0
    ensures Has(ms, WARNING) <==> "l_star" in d && !(MIN_L_STAR <= d["l_star"] <= MAX_L_STAR)
  {
    if "l_star" in d then
      var ls := d["l_star"];
      var a := PositiveCheck("l_star", ls);
      var b := RangeCheck("l_star", ls, MIN_L_STAR, MAX_L_STAR, WARNING);
      HasAppend(a, b, ERROR);
      HasAppend(a, b, WARNING);
      a + b
    else []
  }

  function ExpansionChecks(d: Design): (ms: seq<ValidationMessage>)
    ensures Has(ms, ERROR) <==> "expansion_ratio" in d && d["expansion_ratio"] < 1.0
    ensures Has(ms, WARNING) <==> "expansion_ratio" in d && d["expansion_ratio"] > MAX_EXPANSION_RATIO
  {
    if "expansion_ratio" in d then
      var eps := d["expansion_ratio"];
      var a := Err("expansion_ratio", "Expansion ratio must be >= 1.0", eps < 1.0);
      var b := Warn("expansion_ratio", "Expansion ratio is very large", eps > MAX_EXPANSION_RATIO);
      HasAppend(a, b, ERROR);
      HasAppend(a, b, WARNING);
      a + b
    else []
  }

  /** Every message the chamber rules produce, in the order they run. */
  function ChamberMessages(d: Design): seq<ValidationMessage>
  {
    PressureChecks(d) + ThrustChecks(d) + ThroatChecks(d) + ContractionChecks(d) + LStarChecks(d) +
    ExpansionChecks(d)
  }

  /** The error rules: each present value must be positive, and the area
      ratios at least one. */
  predicate ChamberErrorFree(d: Design)
  {
    ("chamber_pressure" in d ==> d["chamber_pressure"] > 0.0) &&
    ("thrust" in d ==> d["thrust"] > 0.0) &&
    ("throat_diameter" in d ==> d["throat_diameter"] > 0.0) &&
    ("contraction_ratio" in d ==> d["contraction_ratio"] >= 1.0) &&
    ("l_star" in d ==> d["l_star"] > 0.0) &&
    ("expansion_ratio" in d ==> d["expansion_ratio"] >= 1.0)
  }

  /** The warning rules: a very high pressure, a very small throat, a high
      contraction ratio, an L* outside [0.2, 5] m, or a very large
      expansion ratio. */
  predicate ChamberWarns(d: Design)
  {
    ("chamber_pressure" in d && d["chamber_pressure"] > MAX_CHAMBER_PRESSURE) ||
    ("throat_diameter" in d && d["throat_diameter"] < MIN_THROAT_DIAMETER) ||
    ("contraction_ratio" in d && d["contraction_ratio"] > MAX_CONTRACTION_RATIO) ||
    ("l_star" in d && !(MIN_L_STAR <= d["l_star"] <= MAX_L_STAR)) ||
    ("expansion_ratio" in d && d["expansion_ratio"] > MAX_EXPANSION_RATIO)
  }

  /** The severities present in a design's messages, section by section. */
  lemma ChamberSeverities(d: Design, s: Severity)
    ensures Has(ChamberMessages(d), s) <==>
              Has(PressureChecks(d), s) || Has(ThrustChecks(d), s) || Has(ThroatChecks(d), s) ||
              Has(ContractionChecks(d), s) || Has(LStarChecks(d), s) || Has(ExpansionChecks(d), s)
  {
    var p, t, th, c, l, e := PressureChecks(d), ThrustChecks(d), ThroatChecks(d), ContractionChecks(d),
                             LStarChecks(d), ExpansionChecks(d);
    HasAppend(p, t, s);
    HasAppend(p + t, th, s);
    HasAppend(p + t + th, c, s);
    HasAppend(p + t + th + c, l, s);
    HasAppend(p + t + th + c + l, e, s);
  }

  /** A chamber design is valid exactly when it breaks none of the error
      rules. */
  lemma ChamberValidIff(d: Design)
    ensures OfSeverity(ChamberMessages(d), ERROR) == [] <==> ChamberErrorFree(d)
  {
    OfSeverityEmpty(ChamberMessages(d), ERROR);
    ChamberSeverities(d, ERROR);
  }

  /** A chamber design draws a warning exactly when it meets one of the
      warning rules. */
  lemma ChamberWarnsIff(d: Design)
    ensures OfSeverity(ChamberMessages(d), WARNING) != [] <==> ChamberWarns(d)
  {
    OfSeverityEmpty(ChamberMessages(d), WARNING);
    ChamberSeverities(d, WARNING);
  }

  method CheckPressure(d: Design, result: ValidationResult)
    modifies result
    ensures result.messages == old(result.messages) + PressureChecks(d)
  {
    if "chamber_pressure" in d {
      var pc := d["chamber_pressure"];
      ValidatePositive("chamber_pressure", pc, result);
      if pc > MAX_CHAMBER_PRESSURE {
        result.Warning("chamber_pressure", "Chamber pressure is very high");
      }
    }
  }

  method CheckThrust(d: Design, result: ValidationResult)
    modifies result
    ensures result.messages == old(result.messages) + ThrustChecks(d)
  {
    if "thrust" in d {
      ValidatePositive("thrust", d["thrust"], result);
    }
  }

  method CheckThroat(d: Design, result: ValidationResult)
    modifies result
    ensures result.messages == old(result.messages) + ThroatChecks(d)
  {
    if "throat_diameter" in d {
      var dt := d["throat_diameter"];
      ValidatePositive("throat_diameter", dt, result);
      if dt < MIN_THROAT_DIAMETER {
        result.Warning("throat_diameter", "Throat diameter is very small");
      }
    }
  }

  method CheckContraction(d: Design, result: ValidationResult)
    modifies result
    ensures result.messages == old(result.messages) + ContractionChecks(d)
  {
    if "contraction_ratio" in d {
      var cr := d["contraction_ratio"];
      if cr < 1.0 {
        result.Error("contraction_ratio", "Contraction ratio must be >= 1.0");
      }
      if cr > MAX_CONTRACTION_RATIO {
        result.Warning("contraction_ratio", "Contraction ratio is unusually high");
      }
    }
  }

  method CheckLStar(d: Design, result: ValidationResult)
    modifies result
    ensures result.messages == old(result.messages) + LStarChecks(d)
  {
    if "l_star" in d {
      var ls := d["l_star"];
      ValidatePositive("l_star", ls, result);
      ValidateRange("l_star", ls, MIN_L_STAR, MAX_L_STAR, result, WARNING);
    }
  }

  method CheckExpansion(d: Design, result: ValidationResult)
    modifies result
    ensures result.messages == old(result.messages) + ExpansionChecks(d)
  {
    if "expansion_ratio" in d {
      var eps := d["expansion_ratio"];
      if eps < 1.0 {
        result.Error("expansion_ratio", "Expansion ratio must be >= 1.0");
      }
      if eps > MAX_EXPANSION_RATIO {
        result.Warning("expansion_ratio", "Expansion ratio is very large");
      }
    }
  }

  /** `validate_chamber_design`: each present key is checked in turn into
      a fresh result; absent keys add nothing. */
  method ValidateChamberDesign(d: Design) returns (result: ValidationResult)
    ensures fresh(result)
    ensures result.messages == ChamberMessages(d)
  {
    result := new ValidationResult();
    CheckPressure(d, result);
    CheckThrust(d, result);
    CheckThroat(d, result);
    CheckContraction(d, result);
    CheckLStar(d, result);
    CheckExpansion(d, result);
    assert [] + PressureChecks(d) == PressureChecks(d);
  }

  /** The reasonable 2 MPa, 2 kN design of the test suite validates
      cleanly, without even a warning. */
  lemma ReasonableDesignIsValid()
    ensures var d := map["chamber_pressure" := 2000000.0, "thrust" := 2000.0, "throat_diameter" := 0.030,
                         "contraction_ratio" := 3.0, "l_star" := 1.2, "expansion_ratio" := 10.0];
            OfSeverity(ChamberMessages(d), ERROR) == [] && OfSeverity(ChamberMessages(d), WARNING) == []
  {
    var d := map["chamber_pressure" := 2000000.0, "thrust" := 2000.0, "throat_diameter" := 0.030,
                 "contraction_ratio" := 3.0, "l_star" := 1.2, "expansion_ratio" := 10.0];
    assert ChamberErrorFree(d) && !ChamberWarns(d);
    ChamberValidIff(d);
    ChamberWarnsIff(d);
  }

  /** A negative chamber pressure alone makes a design invalid, and a
      35 MPa one alone draws a warning. */
  lemma SingleKeyCases()
    ensures OfSeverity(ChamberMessages(map["chamber_pressure" := -1000000.0]), ERROR) != []
    ensures OfSeverity(ChamberMessages(map["chamber_pressure" := 35000000.0]), WARNING) != []
    ensures OfSeverity(ChamberMessages(map["contraction_ratio" := 0.5]), ERROR) != []
  {
    ChamberValidIff(map["chamber_pressure" := -1000000.0]);
    ChamberWarnsIff(map["chamber_pressure" := 35000000.0]);
    ChamberValidIff(map["contraction_ratio" := 0.5]);
  }
}
