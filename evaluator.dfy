/**
 * The one-step evaluator of rcx_pi/core/evaluator.py: beta reduction of
 * `app(lambda(x, body), a)` through a substitution that respects shadowing
 * but does no renaming, addition recursing on its SECOND argument, and
 * congruence over the arguments. Every node it rebuilds gets its new
 * children as ONE list argument (`Motif(name, new_args)`), and the evaluator
 * does not look inside lists, so a rebuilt node is never reduced again.
 *
 * The `Evaluator` object's `rule_engine` field is stored and never read; the
 * operations below are therefore plain functions and methods of a term.
 */
module Evaluation {
  import opened Base
  import opened Motifs
  import opened Arithmetic

  /** `substitute(e, x, rep)`: replace `var` nodes naming `x`, stop at a `lambda` rebinding `x`. */
  function Substitute(e: Val, x: Val, rep: Val): Val
    decreases e, 1
  {
    if !e.M? then e
    else if e.name == "var" && |e.args| > 0 && e.args[0] == x then rep
    else if e.name == "lambda" && |e.args| > 0 && e.args[0] == x then e
    else if e.args != [] then M(e.name, [Lst(SubstituteArgs(e.args, x, rep))])
    else e
  }

  function SubstituteArgs(xs: seq<Val>, x: Val, rep: Val): (r: seq<Val>)
    ensures |r| == |xs| && forall i :: 0 <= i < |xs| ==> r[i] == Substitute(xs[i], x, rep)
    decreases xs, 0
  {
    if xs == [] then [] else [Substitute(xs[0], x, rep)] + SubstituteArgs(xs[1..], x, rep)
  }

  /** `beta_reduce(lam, arg)`: the body with the bound variable replaced, or `lam` itself when it is no two-argument `lambda`. */
  function BetaReduce(lam: Val, arg: Val): Val {
    if !lam.M? || lam.name != "lambda" then lam
    else if |lam.args| < 2 then lam
    else Substitute(lam.args[1], lam.args[0], arg)
  }

  /** `reduce_once(t)`. The one exception is IndexError, from `add(x, succ())` with a nullary `succ`. */
  function ReduceOnceOf(t: Val): Result<Val>
    decreases t, 2
  {
    if !t.M? then Ok(t)
    else if t.name == "app" && |t.args| >= 2 then
      var func, arg := t.args[0], t.args[1];
      if func.M? && func.name == "lambda" then Ok(BetaReduce(func, arg))
      else
        var rf :- ReduceOnceOf(func);
        if rf != func then Ok(M("app", [Lst([rf, arg])]))
        else
          var ra :- ReduceOnceOf(arg);
          if ra != arg then Ok(M("app", [Lst([func, ra])])) else Congruence(t)
    else if t.name == "add" && |t.args| >= 2 then
      var left, right := t.args[0], t.args[1];
      if right.M? && right.name == "zero" then Ok(left)
      else if right.M? && right.name == "succ" then
        var y :- ArgAt(right, 0);
        Ok(M("succ", [Lst([M("add", [Lst([left, y])])])]))
      else Congruence(t)
    else Congruence(t)
  }

  /** The congruence block: reduce each argument once; rebuild around the list of results if any changed. */
  function Congruence(t: Val): Result<Val>
    requires t.M?
    decreases t, 1
  {
    if t.args == [] then Ok(t)
    else
      var newArgs :- ReduceArgs(t.args);
      if newArgs != t.args then Ok(M(t.name, [Lst(newArgs)])) else Ok(t)
  }

  function ReduceArgs(xs: seq<Val>): (r: Result<seq<Val>>)
    ensures r.Ok? ==> |r.value| == |xs|
    decreases xs, 0
  {
    if xs == [] then Ok([])
    else
      var a :- ReduceOnceOf(xs[0]);
      var rest :- ReduceArgs(xs[1..]);
      Ok([a] + rest)
  }

  /** Prefix finished results to the rest of an argument loop. */
  function Append(done: seq<Val>, r: Result<seq<Val>>): Result<seq<Val>> {
    if r.Err? then r else Ok(done + r.value)
  }

  lemma {:induction false} AppendNothing(r: Result<seq<Val>>)
    ensures Append([], r) == r
  {
    if r.Ok? {
      assert [] + r.value == r.value;
    }
  }

  lemma {:induction false} AppendAssoc(done: seq<Val>, a: Val, r: Result<seq<Val>>)
    ensures Append(done, Append([a], r)) == Append(done + [a], r)
  {
    if r.Ok? {
      assert done + ([a] + r.value) == (done + [a]) + r.value;
    }
  }

  lemma {:induction false} ReduceArgsFails(xs: seq<Val>, i: nat)
    requires i < |xs| && ReduceOnceOf(xs[i]).Err?
    ensures ReduceArgs(xs[i..]) == Err(ReduceOnceOf(xs[i]).error)
  {
    assert xs[i..][0] == xs[i];
  }

  /** One turn of the argument loop: the reduced argument heads the reduction of the remaining arguments. */
  lemma {:induction false} ReduceArgsStep(xs: seq<Val>, i: nat, a: Val)
    requires i < |xs| && ReduceOnceOf(xs[i]) == Ok(a)
    ensures ReduceArgs(xs[i..]) == Append([a], ReduceArgs(xs[i + 1..]))
  {
    assert xs[i..][0] == xs[i] && xs[i..][1..] == xs[i + 1..];
  }

  /** `reduce_once(t)` as the source computes it. */
  method ReduceOnce(t: Val) returns (r: Result<Val>)
    ensures r == ReduceOnceOf(t)
    decreases t, 2
  {
    if !t.M? {
      return Ok(t);
    }
    if t.name == "app" && |t.args| >= 2 {
      var func, arg := t.args[0], t.args[1];
      if func.M? && func.name == "lambda" {
        return Ok(BetaReduce(func, arg));
      }
      var rf :- ReduceOnce(func);
      if rf != func {
        return Ok(M("app", [Lst([rf, arg])]));
      }
      var ra :- ReduceOnce(arg);
      if ra != arg {
        return Ok(M("app", [Lst([func, ra])]));
      }
    } else if t.name == "add" && |t.args| >= 2 {
      var left, right := t.args[0], t.args[1];
      if right.M? && right.name == "zero" {
        return Ok(left);
      }
      if right.M? && right.name == "succ" {
        var y :- ArgAt(right, 0);
        return Ok(M("succ", [Lst([M("add", [Lst([left, y])])])]));
      }
    }
    r := CongruenceLoop(t);
  }

  /** The congruence block of `reduce_once`: the loop over the arguments and the `changed` flag. */
  method CongruenceLoop(t: Val) returns (r: Result<Val>)
    requires t.M?
    ensures r == Congruence(t)
    decreases t, 1
  {
    if t.args == [] {
      return Ok(t);
    }
    var newArgs: seq<Val> := [];
    var changed := false;
    var i := 0;
    AppendNothing(ReduceArgs(t.args));
    assert t.args[0..] == t.args;
    while i < |t.args|
      invariant 0 <= i <= |t.args| && |newArgs| == i
      invariant changed <==> newArgs != t.args[..i]
      invariant ReduceArgs(t.args) == Append(newArgs, ReduceArgs(t.args[i..]))
    {
      var ri := ReduceOnce(t.args[i]);
      if ri.Err? {
        ReduceArgsFails(t.args, i);
        return Err(ri.error);
      }
      var reducedArg := ri.value;
      ReduceArgsStep(t.args, i, reducedArg);
      AppendAssoc(newArgs, reducedArg, ReduceArgs(t.args[i + 1..]));
      assert t.args[..i + 1] == t.args[..i] + [t.args[i]];
      newArgs := newArgs + [reducedArg];
      if reducedArg != t.args[i] {
        changed := true;
      }
      i := i + 1;
    }
    assert t.args[i..] == [] && t.args[..i] == t.args;
    assert newArgs + [] == newArgs;
    if changed {
      return Ok(M(t.name, [Lst(newArgs)]));
    }
    return Ok(t);
  }

  /** `get_reduction_rule(before, after)`: named by the head of `before`. */
  function GetReductionRule(before: Val, after: Val): string {
    if before.M? then
      if before.name == "app" then "β-reduction"
      else if before.name == "add" then "addition"
      else if before.name == "mult" then "multiplication"
      else "reduction"
    else "reduction"
  }

  /** A step of `evaluate`'s trace. */
  datatype EvalStep = EvalStep(rule: string, fromTerm: Val, toTerm: Val)

  /**
   * The `while True` loop of `evaluate`, allowed `fuel` rewriting steps: the
   * final term and the trace, None when the fuel runs out first.
   */
  function EvalRun(t: Val, fuel: nat): Result<Option<(Val, seq<EvalStep>)>>
    decreases fuel
  {
    var reduced :- ReduceOnceOf(t);
    if reduced == t then Ok(Some((t, [])))
    else if fuel == 0 then Ok(None)
    else
      var rest :- EvalRun(reduced, fuel - 1);
      if rest.None? then Ok(None)
      else Ok(Some((rest.value.0, [EvalStep(GetReductionRule(t, reduced), t, reduced)] + rest.value.1)))
  }

  /** `evaluate(t)` with fuel: the final term only, as the source returns it. */
  function EvaluateOf(t: Val, fuel: nat): Result<Option<Val>> {
    var r :- EvalRun(t, fuel);
    if r.None? then Ok(None) else Ok(Some(r.value.0))
  }

  function PrependSteps(steps: seq<EvalStep>, r: Result<Option<(Val, seq<EvalStep>)>>): Result<Option<(Val, seq<EvalStep>)>> {
    if r.Err? || r.value.None? then r else Ok(Some((r.value.value.0, steps + r.value.value.1)))
  }

  method Evaluate(motif: Val, fuel: nat) returns (r: Result<Option<Val>>)
    ensures r == EvaluateOf(motif, fuel)
  {
    var steps: seq<EvalStep> := [];
    var current := motif;
    var left := fuel;
    var whole := EvalRun(motif, fuel);
    assert whole.Ok? && whole.value.Some? ==> [] + whole.value.value.1 == whole.value.value.1;
    while true
      invariant EvalRun(motif, fuel) == PrependSteps(steps, EvalRun(current, left))
      decreases left
    {
      var reduced :- ReduceOnce(current);
      if reduced == current {
        break;
      }
      if left == 0 {
        return Ok(None);
      }
      var step := EvalStep(GetReductionRule(current, reduced), current, reduced);
      var tail := EvalRun(reduced, left - 1);
      assert tail.Ok? && tail.value.Some? ==> steps + ([step] + tail.value.value.1) == (steps + [step]) + tail.value.value.1;
      steps := steps + [step];
      current := reduced;
      left := left - 1;
    }
    return Ok(Some(current));
  }

  /** What `evaluate_with_steps` returns. */
  datatype EvalReport = EvalReport(result: Val, steps: seq<EvalStep>, success: bool)

  /** `evaluate_with_steps(t)` reduces nothing: the input, no steps, success. */
  function EvaluateWithSteps(motif: Val): (r: EvalReport)
    ensures r.result == motif && r.steps == [] && r.success
  {
    EvalReport(motif, [], true)
  }

  /** `x` occurs free in `e`: a `var` node naming it, reached without passing a `lambda` that rebinds it. */
  predicate FreeIn(x: Val, e: Val)
    decreases e
  {
    e.M? &&
    ((e.name == "var" && |e.args| > 0 && e.args[0] == x)
     || (!(e.name == "lambda" && |e.args| > 0 && e.args[0] == x)
         && exists i :: 0 <= i < |e.args| && FreeIn(x, e.args[i])))
  }

  /** `r` occurs in `v`, looking through Motif arguments and list elements. */
  predicate Mentions(v: Val, r: Val)
    decreases v
  {
    v == r
    || (v.M? && exists i :: 0 <= i < |v.args| && Mentions(v.args[i], r))
    || (v.Lst? && exists i :: 0 <= i < |v.items| && Mentions(v.items[i], r))
  }

  /** Every free occurrence is replaced: when `x` is free in `e`, the replacement appears in the result. */
  lemma {:induction false} SubstituteReachesFreeOccurrences(e: Val, x: Val, rep: Val)
    requires FreeIn(x, e)
    ensures Mentions(Substitute(e, x, rep), rep)
    decreases e
  {
    if !(e.name == "var" && |e.args| > 0 && e.args[0] == x) {
      var i :| 0 <= i < |e.args| && FreeIn(x, e.args[i]);
      SubstituteReachesFreeOccurrences(e.args[i], x, rep);
      var sa := SubstituteArgs(e.args, x, rep);
      assert Mentions(sa[i], rep);
      assert Mentions(Lst(sa), rep);
      assert Substitute(e, x, rep) == M(e.name, [Lst(sa)]);
      assert Mentions(M(e.name, [Lst(sa)]).args[0], rep);
    }
  }

  /** Without a free occurrence the replacement is never used: any two replacements give the same result. */
  lemma {:induction false} SubstituteIgnoresReplacementWhenNotFree(e: Val, x: Val, rep: Val, rep': Val)
    requires !FreeIn(x, e)
    ensures Substitute(e, x, rep) == Substitute(e, x, rep')
    decreases e
  {
    if e.M? && !(e.name == "lambda" && |e.args| > 0 && e.args[0] == x) && e.args != [] {
      forall i | 0 <= i < |e.args|
        ensures Substitute(e.args[i], x, rep) == Substitute(e.args[i], x, rep')
      {
        SubstituteIgnoresReplacementWhenNotFree(e.args[i], x, rep, rep');
      }
      assert SubstituteArgs(e.args, x, rep) == SubstituteArgs(e.args, x, rep');
    }
  }

  /** Shadowing: a `lambda` that rebinds `x` is returned as it is; a `var` node naming `x` is replaced. */
  lemma {:induction false} SubstituteShadowsAndReplaces(x: Val, rest: seq<Val>, rep: Val)
    ensures Substitute(M("lambda", [x] + rest), x, rep) == M("lambda", [x] + rest)
    ensures Substitute(M("var", [x] + rest), x, rep) == rep
  {
  }

  /**
   * No renaming: beta-reducing `λx.λy.x` applied to the free variable `y`
   * puts `y` under the inner binder of `y`, where it is captured.
   */
  lemma {:induction false} SubstituteCaptures()
    ensures BetaReduce(M("lambda", [Atom("x"), M("lambda", [Atom("y"), M("var", [Atom("x")])])]), M("var", [Atom("y")]))
      == M("lambda", [Lst([Atom("y"), M("var", [Atom("y")])])])
  {
    var inner := M("lambda", [Atom("y"), M("var", [Atom("x")])]);
    assert SubstituteArgs(inner.args, Atom("x"), M("var", [Atom("y")])) == [Atom("y"), M("var", [Atom("y")])];
  }

  /** `beta_reduce` leaves alone anything but a `lambda` with at least two arguments, and `λx.x` returns its argument. */
  lemma {:induction false} BetaReduceCases(lam: Val, x: Val, arg: Val)
    ensures !(lam.M? && lam.name == "lambda" && |lam.args| >= 2) ==> BetaReduce(lam, arg) == lam
    ensures BetaReduce(M("lambda", [x, M("var", [x])]), arg) == arg
  {
  }

  /** `app(F, A)` with a `lambda` node F reduces in one step to `beta_reduce(F, A)`, whatever follows A. */
  lemma {:induction false} AppOfLambdaIsBeta(f: Val, a: Val, rest: seq<Val>)
    requires f.M? && f.name == "lambda"
    ensures ReduceOnceOf(M("app", [f, a] + rest)) == Ok(BetaReduce(f, a))
  {
  }

  /**
   * Addition looks at its SECOND argument: `add(x, zero) → x`,
   * `add(x, succ(y)) → succ(add(x, y))` (rebuilt around lists), and a nullary
   * `succ` there raises IndexError.
   */
  lemma {:induction false} AdditionRecursesOnSecondArgument(x: Val, zs: seq<Val>, y: Val, ys: seq<Val>, rest: seq<Val>)
    ensures ReduceOnceOf(M("add", [x, M("zero", zs)] + rest)) == Ok(x)
    ensures ReduceOnceOf(M("add", [x, M("succ", [y] + ys)] + rest)) == Ok(M("succ", [Lst([M("add", [Lst([x, y])])])]))
    ensures ReduceOnceOf(M("add", [x, M("succ", [])] + rest)) == Err(IndexError)
  {
    assert ([x, M("succ", [y] + ys)] + rest)[1] == M("succ", [y] + ys);
  }

  /** The congruence loop reduces each argument once, independently, in order. */
  lemma {:induction false} ReduceArgsPointwise(xs: seq<Val>)
    ensures ReduceArgs(xs).Ok? <==> forall i :: 0 <= i < |xs| ==> ReduceOnceOf(xs[i]).Ok?
    ensures ReduceArgs(xs).Ok? ==> forall i :: 0 <= i < |xs| ==> ReduceOnceOf(xs[i]) == Ok(ReduceArgs(xs).value[i])
    decreases xs
  {
    if xs != [] {
      ReduceArgsPointwise(xs[1..]);
      assert forall i :: 1 <= i < |xs| ==> xs[i] == xs[1..][i - 1];
    }
  }

  /**
   * When no head rule applies, the term comes back unchanged exactly when no
   * argument changed; otherwise it is rebuilt with one list argument holding
   * the reduced arguments.
   */
  lemma {:induction false} CongruenceWhenNoHeadRule(t: Val)
    requires t.M? && t.name != "app" && t.name != "add"
    ensures ReduceOnceOf(t).Ok? <==> ReduceArgs(t.args).Ok?
    ensures ReduceOnceOf(t) == Ok(t) <==> ReduceArgs(t.args) == Ok(t.args)
    ensures ReduceOnceOf(t).Ok? && ReduceOnceOf(t) != Ok(t) ==> ReduceOnceOf(t) == Ok(M(t.name, [Lst(ReduceArgs(t.args).value)]))
  {
  }

  /** A rebuilt node is a normal form: its one argument is a list, which `reduce_once` does not enter. */
  lemma {:induction false} RebuiltNodeIsNormalForm(n: string, xs: seq<Val>)
    ensures ReduceOnceOf(M(n, [Lst(xs)])) == Ok(M(n, [Lst(xs)]))
  {
    assert [Lst(xs)][1..] == [];
    assert ReduceOnceOf(Lst(xs)) == Ok(Lst(xs));
    assert ReduceArgs([Lst(xs)]) == Ok([Lst(xs)] + []);
  }

  /** The rule name depends only on the head of `before`. */
  lemma {:induction false} ReductionRuleByHead(before: Val, after: Val, after': Val)
    ensures GetReductionRule(before, after) == GetReductionRule(before, after')
    ensures GetReductionRule(before, after) == "β-reduction" <==> before.M? && before.name == "app"
    ensures GetReductionRule(before, after) == "reduction" <==> !(before.M? && before.name in {"app", "add", "mult"})
  {
  }

  /** A trace that `evaluate` records from `t` to `v`: genuine one-step reductions, chained, named by `get_reduction_rule`. */
  ghost predicate EvalTrace(t: Val, v: Val, steps: seq<EvalStep>) {
    && (steps == [] ==> v == t)
    && (steps != [] ==> steps[0].fromTerm == t && steps[|steps| - 1].toTerm == v)
    && (forall i :: 0 <= i < |steps| ==>
          ReduceOnceOf(steps[i].fromTerm) == Ok(steps[i].toTerm) && steps[i].fromTerm != steps[i].toTerm
          && steps[i].rule == GetReductionRule(steps[i].fromTerm, steps[i].toTerm))
    && (forall i :: 0 <= i && i + 1 < |steps| ==> steps[i].toTerm == steps[i + 1].fromTerm)
  }

  /**
   * `evaluate` stops exactly at a term that `reduce_once` returns unchanged,
   * after at most `fuel` steps, each a genuine reduction of the previous result.
   */
  lemma {:induction false} EvalRunTrace(t: Val, fuel: nat)
    requires EvalRun(t, fuel).Ok? && EvalRun(t, fuel).value.Some?
    ensures ReduceOnceOf(EvalRun(t, fuel).value.value.0) == Ok(EvalRun(t, fuel).value.value.0)
    ensures |EvalRun(t, fuel).value.value.1| <= fuel
    ensures EvalTrace(t, EvalRun(t, fuel).value.value.0, EvalRun(t, fuel).value.value.1)
    decreases fuel
  {
    var reduced := ReduceOnceOf(t).value;
    if reduced != t {
      EvalRunTrace(reduced, fuel - 1);
      var rest := EvalRun(reduced, fuel - 1).value.value;
      var steps := [EvalStep(GetReductionRule(t, reduced), t, reduced)] + rest.1;
      assert EvalRun(t, fuel).value.value == (rest.0, steps);
      assert forall i :: 1 <= i < |steps| ==> steps[i] == rest.1[i - 1];
    }
  }

  /** More fuel does not change a result that was reached: the result does not depend on the bound. */
  lemma {:induction false} EvalRunFuelMonotone(t: Val, fuel: nat, more: nat)
    requires fuel <= more
    requires EvalRun(t, fuel).Ok? && EvalRun(t, fuel).value.Some?
    ensures EvalRun(t, more) == EvalRun(t, fuel)
    decreases fuel
  {
    var reduced := ReduceOnceOf(t).value;
    if reduced != t {
      EvalRunFuelMonotone(reduced, fuel - 1, more - 1);
    }
  }

  /**
   * Because rebuilt nodes hold a list, `evaluate(add(ONE, ONE))` stops after
   * one step at a term that is no numeral.
   */
  lemma {:induction false} EvaluateAddOneOneIsStuck()
    ensures EvaluateOf(Add(Numeral(1), Numeral(1)), 1) ==
      Ok(Some(M("succ", [Lst([M("add", [Lst([Numeral(1), Zero()])])])])))
    ensures ToNumber(M("succ", [Lst([M("add", [Lst([Numeral(1), Zero()])])])])) == None
  {
    var s := M("succ", [Lst([M("add", [Lst([Numeral(1), Zero()])])])]);
    assert Numeral(1) == Succ(Zero());
    assert ReduceOnceOf(Add(Numeral(1), Numeral(1))) == Ok(s);
    RebuiltNodeIsNormalForm("succ", [M("add", [Lst([Numeral(1), Zero()])])]);
  }
}
