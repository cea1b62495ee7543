/**
 * The pretty-printer of rcx_pi/utils/formatter.py. Numerals print as
 * `SUCC^k(ZERO)`, the arithmetic and application heads as `name(A, B)` over
 * their first two arguments, `lambda` as `λx.body`, `var` as its name, and
 * anything else as `name(a1, ..., an)`. The `Formatter` object has no state,
 * so its methods are functions here, with the result-report loop a method.
 */
module Formatting {
  import opened Base
  import opened Motifs
  import opened Arithmetic
  import Rules

  /** `format_motif(t)`. The one exception is IndexError, from a `succ` with no arguments that is no numeral. */
  function FormatMotif(t: Val): (r: Result<string>)
    ensures r.Err? ==> r.error == IndexError
    ensures !t.M? ==> r == Ok(Str(t))
    decreases t, 1
  {
    if !t.M? then Ok(Str(t))
    else if t.name == "zero" then Ok("ZERO")
    else if t.name == "succ" then
      match CountSuccessors(t)
      case Some(c) => Ok(if c > 0 then "SUCC^" + NatToString(c) + "(ZERO)" else "ZERO")
      case None =>
        var inner :- ArgAt(t, 0);
        var s :- FormatMotif(inner);
        Ok("succ(" + s + ")")
    else if (t.name == "add" || t.name == "mult" || t.name == "app") && |t.args| >= 2 then
      var a :- FormatMotif(t.args[0]);
      var b :- FormatMotif(t.args[1]);
      Ok(t.name + "(" + a + ", " + b + ")")
    else if t.name == "lambda" && |t.args| >= 2 then
      var body :- FormatMotif(t.args[1]);
      Ok("λ" + Str(t.args[0]) + "." + body)
    else if t.name == "var" && |t.args| >= 1 then Ok(Str(t.args[0]))
    else if t.args == [] then Ok(t.name)
    else
      var parts :- FormatAll(t.args);
      Ok(t.name + "(" + Join(", ", parts) + ")")
  }

  function FormatAll(xs: seq<Val>): (r: Result<seq<string>>)
    ensures r.Err? ==> r.error == IndexError
    ensures r.Ok? ==> |r.value| == |xs|
    decreases xs, 0
  {
    if xs == [] then Ok([])
    else
      var a :- FormatMotif(xs[0]);
      var rest :- FormatAll(xs[1..]);
      Ok([a] + rest)
  }

  /** `_count_successors(t)`. */
  function CountSuccessors(t: Val): Option<nat> {
    if !t.M? then None
    else if t.name == "zero" then Some(0)
    else if t.name == "succ" && |t.args| > 0 then
      match CountSuccessors(t.args[0])
      case Some(k) => Some(k + 1)
      case None => None
    else None
  }

  /** `_count_successors` agrees with `ArithmeticDomain.to_number` on every input. */
  lemma {:induction false} CountSuccessorsIsToNumber(t: Val)
    ensures CountSuccessors(t) == ToNumber(t)
  {
    if t.M? && t.name == "succ" && |t.args| > 0 {
      CountSuccessorsIsToNumber(t.args[0]);
    }
  }

  /** The numeral of `n` prints as `ZERO` or `SUCC^n(ZERO)`. */
  lemma {:induction false} FormatNumeral(n: nat)
    ensures FormatMotif(Numeral(n)) == Ok(if n == 0 then "ZERO" else "SUCC^" + NatToString(n) + "(ZERO)")
  {
    CountSuccessorsIsToNumber(Numeral(n));
    ToNumberOfNumeral(n);
  }

  /**
   * A `succ` node that is no numeral prints as `succ(<first argument>)`, and
   * raises IndexError when it has no arguments.
   */
  lemma {:induction false} FormatNonNumeralSucc(args: seq<Val>)
    requires ToNumber(M("succ", args)) == None
    ensures args == [] ==> FormatMotif(M("succ", args)) == Err(IndexError)
    ensures args != [] && FormatMotif(args[0]).Ok? ==> FormatMotif(M("succ", args)) == Ok("succ(" + FormatMotif(args[0]).value + ")")
  {
    CountSuccessorsIsToNumber(M("succ", args));
  }

  /** The binary heads show only their first two arguments; `var` shows its first argument as `str` does. */
  lemma {:induction false} FormatBinaryIgnoresExtraArguments(name: string, a: Val, b: Val, rest: seq<Val>)
    requires name == "add" || name == "mult" || name == "app"
    requires FormatMotif(a).Ok? && FormatMotif(b).Ok?
    ensures FormatMotif(M(name, [a, b] + rest)) == Ok(name + "(" + FormatMotif(a).value + ", " + FormatMotif(b).value + ")")
    ensures FormatMotif(M("var", [a] + rest)) == Ok(Str(a))
  {
    assert ([a, b] + rest)[0] == a && ([a, b] + rest)[1] == b;
  }

  /** `zero` prints as `ZERO` whatever its arguments. */
  lemma {:induction false} FormatZeroIgnoresArguments(args: seq<Val>)
    ensures FormatMotif(M("zero", args)) == Ok("ZERO")
  {
  }

  /** A `lambda` with at least two arguments prints as `λ<str of the first>.<body>`, raising only as its body does. */
  lemma {:induction false} FormatLambda(x: Val, body: Val, rest: seq<Val>)
    ensures FormatMotif(body).Ok? ==> FormatMotif(M("lambda", [x, body] + rest)) == Ok("λ" + Str(x) + "." + FormatMotif(body).value)
    ensures FormatMotif(body).Err? ==> FormatMotif(M("lambda", [x, body] + rest)) == Err(IndexError)
  {
    assert ([x, body] + rest)[0] == x && ([x, body] + rest)[1] == body;
  }

  /** `format_motif` on the arguments, in order: it succeeds iff every argument prints, and piece `i` is argument `i`'s text. */
  lemma {:induction false} FormatAllPointwise(xs: seq<Val>)
    ensures FormatAll(xs).Ok? <==> forall i :: 0 <= i < |xs| ==> FormatMotif(xs[i]).Ok?
    ensures FormatAll(xs).Ok? ==> forall i :: 0 <= i < |xs| ==> FormatAll(xs).value[i] == FormatMotif(xs[i]).value
    decreases xs
  {
    if xs != [] {
      FormatAllPointwise(xs[1..]);
      assert forall i :: 1 <= i < |xs| ==> xs[i] == xs[1..][i - 1];
    }
  }

  /** A head none of the special cases claims. */
  predicate DefaultHead(name: string, args: seq<Val>) {
    && name != "zero" && name != "succ"
    && !((name == "add" || name == "mult" || name == "app" || name == "lambda") && |args| >= 2)
    && !(name == "var" && |args| >= 1)
  }

  /**
   * Any other head, including a special head with too few arguments, prints
   * as its bare name when nullary, and otherwise as `name(a1, ..., an)` over
   * every argument, raising when one of them does.
   */
  lemma {:induction false} FormatDefaultHead(name: string, args: seq<Val>)
    requires DefaultHead(name, args)
    ensures args == [] ==> FormatMotif(M(name, args)) == Ok(name)
    ensures args != [] && FormatAll(args).Ok? ==> FormatMotif(M(name, args)) == Ok(name + "(" + Join(", ", FormatAll(args).value) + ")")
    ensures args != [] && FormatAll(args).Err? ==> FormatMotif(M(name, args)) == Err(IndexError)
  {
  }

  /** A step as `format_step` reads it: any of its three keys may be absent. */
  datatype StepDict = StepDict(rule: Option<string>, fromTerm: Option<Val>, toTerm: Option<Val>)

  /** The dictionary of a step that `reduce_completely` or `apply_projections` records. */
  function StepDictOf(s: Rules.Step): StepDict {
    StepDict(Some(s.rule), Some(s.fromTerm), Some(s.toTerm))
  }

  /** `format_step(step)`: `rule: from → to`, with `unknown` and the empty string as defaults. */
  function FormatStep(step: StepDict): Result<string> {
    var rule := if step.rule.Some? then step.rule.value else "unknown";
    var f :- FormatMotif(if step.fromTerm.Some? then step.fromTerm.value else Atom(""));
    var t :- FormatMotif(if step.toTerm.Some? then step.toTerm.value else Atom(""));
    Ok(rule + ": " + f + " → " + t)
  }

  /**
   * A step prints as `rule: from → to`. A missing rule reads as `unknown` and
   * a missing term as the empty string, and the step raises only where
   * printing one of its terms does.
   */
  lemma {:induction false} FormatStepLayout(rule: string, f: Val, t: Val)
    ensures FormatMotif(f).Ok? && FormatMotif(t).Ok? ==>
      FormatStep(StepDict(Some(rule), Some(f), Some(t))) == Ok(rule + ": " + FormatMotif(f).value + " → " + FormatMotif(t).value)
    ensures FormatMotif(f).Err? || FormatMotif(t).Err? ==> FormatStep(StepDict(Some(rule), Some(f), Some(t))) == Err(IndexError)
    ensures FormatStep(StepDict(None, None, None)) == Ok("unknown:  → ")
  {
    assert FormatMotif(Atom("")) == Ok("");
    assert "unknown" + ": " + "" + " → " + "" == "unknown:  → ";
  }

  /** The numbered lines of the Steps block, counting from `i`. */
  function StepLines(steps: seq<StepDict>, i: nat): (r: Result<seq<string>>)
    ensures r.Ok? ==> |r.value| == |steps|
  {
    if steps == [] then Ok([])
    else
      var line :- FormatStep(steps[0]);
      var rest :- StepLines(steps[1..], i + 1);
      Ok(["  " + NatToString(i) + ". " + line] + rest)
  }

  /** The lines that `format_evaluation_result` joins. */
  function EvaluationLines(original: Val, result: Val, steps: seq<StepDict>): Result<seq<string>> {
    var input :- FormatMotif(original);
    var block :- if steps == [] then Ok([]) else
      (var ls :- StepLines(steps, 1); Ok(["Steps:"] + ls));
    var res :- FormatMotif(result);
    Ok(["Input: " + input] + block + ["Result: " + res])
  }

  /**
   * The report has an Input line, then a `Steps:` header only when there are
   * steps, one numbered line per step in order, and a Result line last.
   */
  lemma {:induction false} EvaluationLinesShape(original: Val, result: Val, steps: seq<StepDict>)
    requires EvaluationLines(original, result, steps).Ok?
    ensures var ls := EvaluationLines(original, result, steps).value;
      && |ls| == (if steps == [] then 2 else 3 + |steps|)
      && ls[0] == "Input: " + FormatMotif(original).value
      && ls[|ls| - 1] == "Result: " + FormatMotif(result).value
      && (steps != [] ==> ls[1] == "Steps:")
      && (forall i :: 0 <= i < |steps| ==> FormatStep(steps[i]).Ok? && ls[i + 2] == "  " + NatToString(i + 1) + ". " + FormatStep(steps[i]).value)
  {
    if steps != [] {
      StepLinesAt(steps, 1);
    }
  }

  lemma {:induction false} StepLinesAt(steps: seq<StepDict>, i: nat)
    requires StepLines(steps, i).Ok?
    ensures forall j :: 0 <= j < |steps| ==>
      FormatStep(steps[j]).Ok? && StepLines(steps, i).value[j] == "  " + NatToString(i + j) + ". " + FormatStep(steps[j]).value
    decreases steps
  {
    if steps != [] {
      StepLinesAt(steps[1..], i + 1);
      assert forall j :: 1 <= j < |steps| ==> steps[j] == steps[1..][j - 1];
    }
  }

  /** The text `format_evaluation_result` returns: the lines joined by newlines. */
  function EvaluationReport(original: Val, result: Val, steps: seq<StepDict>): Result<string> {
    var ls :- EvaluationLines(original, result, steps);
    Ok(Join("\n", ls))
  }

  function PrependLines(done: seq<string>, r: Result<seq<string>>): Result<seq<string>> {
    if r.Err? then r else Ok(done + r.value)
  }

  /** The loop of `format_evaluation_result` over `enumerate(steps, 1)`, appending to `lines`. */
  method AppendStepLines(lines0: seq<string>, steps: seq<StepDict>) returns (r: Result<seq<string>>)
    ensures r == PrependLines(lines0, StepLines(steps, 1))
  {
    var lines := lines0;
    var i := 0;
    assert steps[0..] == steps;
    while i < |steps|
      invariant 0 <= i <= |steps| && |lines| == |lines0| + i
      invariant PrependLines(lines0, StepLines(steps, 1)) == PrependLines(lines, StepLines(steps[i..], i + 1))
    {
      assert steps[i..][0] == steps[i] && steps[i..][1..] == steps[i + 1..];
      var line :- FormatStep(steps[i]);
      var numbered := "  " + NatToString(i + 1) + ". " + line;
      var rest := StepLines(steps[i + 1..], i + 2);
      assert rest.Ok? ==> lines + ([numbered] + rest.value) == (lines + [numbered]) + rest.value;
      lines := lines + [numbered];
      i := i + 1;
    }
    assert steps[|steps|..] == [];
    assert lines + [] == lines;
    return Ok(lines);
  }

  /** `format_evaluation_result(original, result, steps)`: build the lines and join them. */
  method FormatEvaluationResult(original: Val, result: Val, steps: seq<StepDict>) returns (r: Result<string>)
    ensures r == EvaluationReport(original, result, steps)
  {
    var input :- FormatMotif(original);
    var lines := ["Input: " + input];
    ghost var block: seq<string> := [];
    if steps != [] {
      lines :- AppendStepLines(lines + ["Steps:"], steps);
      block := ["Steps:"] + StepLines(steps, 1).value;
    }
    assert lines == ["Input: " + input] + block;
    var res :- FormatMotif(result);
    lines := lines + ["Result: " + res];
    assert EvaluationLines(original, result, steps) == Ok(lines);
    return Ok(Join("\n", lines));
  }
}
