/**
 * The rule engine of rcx_pi/core/rules.py. It is configured with an optional
 * arithmetic domain and an optional lambda domain. `apply_rules` rewrites a
 * term AT ITS ROOT ONLY: first by the lambda domain's rules in order, then by
 * the four Peano rules. `reduce_completely` repeats that up to a step bound
 * and records each step.
 */
module Rules {
  import opened Base
  import opened Motifs
  import opened LambdaDomains
  import opened Arithmetic

  /** The rule texts that `_try_arithmetic_rules` reports. */
  const AddZeroText := "μ(add, μ(zero), $X) → $X"
  const AddSuccText := "μ(add, μ(succ, $X), $Y) → μ(succ, μ(add, $X, $Y))"
  const MultZeroText := "μ(mult, μ(zero), $Y) → μ(zero)"
  const MultSuccText := "μ(mult, μ(succ, $X), $Y) → μ(add, $Y, μ(mult, $X, $Y))"

  /** The four methods `_add_zero`, `_add_succ`, `_mult_zero`, `_mult_succ`. */
  datatype ArithRule = AddZeroRule | AddSuccRule | MultZeroRule | MultSuccRule

  /** An entry of `self.rules`: a name with a bound method, or one of the lambda domain's entries. */
  datatype RuleEntry = ArithEntry(name: string, rule: ArithRule) | LambdaEntry(lambdaRule: LambdaRule)

  /** One recorded step of `reduce_completely`: its number, the rule text, and the terms before and after. */
  datatype Step = Step(num: int, rule: string, fromTerm: Val, toTerm: Val)

  const ArithmeticEntries: seq<RuleEntry> := [
    ArithEntry("add_zero", AddZeroRule), ArithEntry("add_succ", AddSuccRule),
    ArithEntry("mult_zero", MultZeroRule), ArithEntry("mult_succ", MultSuccRule)
  ]

  function LambdaEntries(rs: seq<LambdaRule>): (r: seq<RuleEntry>)
    ensures |r| == |rs| && forall i :: 0 <= i < |rs| ==> r[i] == LambdaEntry(rs[i])
  {
    if rs == [] then [] else [LambdaEntry(rs[0])] + LambdaEntries(rs[1..])
  }

  /** What `setup_rules` appends: the arithmetic entries when there is an arithmetic domain, then the lambda domain's. */
  function SetupEntries(arith: bool, lambda: Option<LambdaDomain>): seq<RuleEntry> {
    (if arith then ArithmeticEntries else []) + (if lambda.Some? then LambdaEntries(lambda.value.rules) else [])
  }

  /**
   * `_try_arithmetic_rules(t)`. A term without `name` (a str or a list) raises
   * AttributeError, as does `args` of a Variable named `add` or `mult`, or
   * `.name` of a first argument that is neither Motif nor Variable; taking the
   * inner term of a nullary `succ` raises IndexError, of a Variable named
   * `succ` AttributeError.
   */
  function TryArithmeticRules(t: Val): Result<Option<(Val, string)>> {
    var n :- NameOf(t);
    if n == "add" then
      var args :- ArgsOf(t);
      if |args| >= 2 then
        var h :- NameOf(args[0]);
        if h == "zero" then Ok(Some((args[1], AddZeroText)))
        else if h == "succ" then
          var inner :- ArgAt(args[0], 0);
          Ok(Some((M("succ", [M("add", [inner, args[1]])]), AddSuccText)))
        else Ok(None)
      else Ok(None)
    else if n == "mult" then
      var args :- ArgsOf(t);
      if |args| >= 2 then
        var h :- NameOf(args[0]);
        if h == "zero" then Ok(Some((M("zero", []), MultZeroText)))
        else if h == "succ" then
          var inner :- ArgAt(args[0], 0);
          Ok(Some((M("add", [args[1], M("mult", [inner, args[1]])]), MultSuccText)))
        else Ok(None)
      else Ok(None)
    else Ok(None)
  }

  /** The guard shared by the four rule methods: `t.name == head and len(t.args) >= 2 and t.args[0].name == first`. */
  function Fires(t: Val, head: string, first: string): Result<bool> {
    var n :- NameOf(t);
    if n != head then Ok(false)
    else
      var args :- ArgsOf(t);
      if |args| < 2 then Ok(false)
      else
        var h :- NameOf(args[0]);
        Ok(h == first)
  }

  /** The rule methods `_add_zero`, `_add_succ`, `_mult_zero` and `_mult_succ`: the rewrite, or None. */
  function ApplyArithRule(rule: ArithRule, t: Val): Result<Option<Val>> {
    match rule
    case AddZeroRule =>
      var f :- Fires(t, "add", "zero");
      if f then Ok(Some(t.args[1])) else Ok(None)
    case AddSuccRule =>
      var f :- Fires(t, "add", "succ");
      if f then
        var inner :- ArgAt(t.args[0], 0);
        Ok(Some(M("succ", [M("add", [inner, t.args[1]])])))
      else Ok(None)
    case MultZeroRule =>
      var f :- Fires(t, "mult", "zero");
      if f then Ok(Some(M("zero", []))) else Ok(None)
    case MultSuccRule =>
      var f :- Fires(t, "mult", "succ");
      if f then
        var inner :- ArgAt(t.args[0], 0);
        Ok(Some(M("add", [t.args[1], M("mult", [inner, t.args[1]])])))
      else Ok(None)
  }

  function RuleText(rule: ArithRule): string {
    match rule
    case AddZeroRule => AddZeroText
    case AddSuccRule => AddSuccText
    case MultZeroRule => MultZeroText
    case MultSuccRule => MultSuccText
  }

  /** Try the rule methods in order and report the first that gives a term; an exception stops the search. */
  function FirstFiring(rules: seq<ArithRule>, t: Val): Result<Option<(Val, string)>> {
    if rules == [] then Ok(None)
    else
      var r :- ApplyArithRule(rules[0], t);
      if r.Some? then Ok(Some((r.value, RuleText(rules[0])))) else FirstFiring(rules[1..], t)
  }

  /**
   * `_try_arithmetic_rules` is the four rule methods tried in the order
   * `setup_rules` lists them, with the same results and the same exceptions.
   */
  lemma {:induction false} TryArithmeticIsRuleListInOrder(t: Val)
    ensures TryArithmeticRules(t) == FirstFiring([AddZeroRule, AddSuccRule, MultZeroRule, MultSuccRule], t)
  {
    var rs := [AddZeroRule, AddSuccRule, MultZeroRule, MultSuccRule];
    assert rs[1..] == [AddSuccRule, MultZeroRule, MultSuccRule];
    assert rs[1..][1..] == [MultZeroRule, MultSuccRule];
    assert rs[1..][1..][1..] == [MultSuccRule];
    assert rs[1..][1..][1..][1..] == [];
    var r0, r1 := ApplyArithRule(AddZeroRule, t), ApplyArithRule(AddSuccRule, t);
    var r2, r3 := ApplyArithRule(MultZeroRule, t), ApplyArithRule(MultSuccRule, t);
    assert FirstFiring(rs[1..][1..][1..], t) ==
      if r3.Err? then Err(r3.error) else if r3.value.Some? then Ok(Some((r3.value.value, MultSuccText))) else Ok(None);
    assert FirstFiring(rs[1..][1..], t) ==
      if r2.Err? then Err(r2.error) else if r2.value.Some? then Ok(Some((r2.value.value, MultZeroText))) else FirstFiring(rs[1..][1..][1..], t);
    assert FirstFiring(rs[1..], t) ==
      if r1.Err? then Err(r1.error) else if r1.value.Some? then Ok(Some((r1.value.value, AddSuccText))) else FirstFiring(rs[1..][1..], t);
    assert FirstFiring(rs, t) ==
      if r0.Err? then Err(r0.error) else if r0.value.Some? then Ok(Some((r0.value.value, AddZeroText))) else FirstFiring(rs[1..], t);
    if !(t.M? || t.V?) {
      assert r0 == Err(AttributeError);
    } else if t.name != "add" && t.name != "mult" {
      assert r0 == Ok(None) && r1 == Ok(None) && r2 == Ok(None) && r3 == Ok(None);
    } else if t.V? {
      if t.name == "add" {
        assert r0 == Err(AttributeError);
      } else {
        assert r0 == Ok(None) && r1 == Ok(None) && r2 == Err(AttributeError);
      }
    } else if |t.args| < 2 {
      assert r0 == Ok(None) && r1 == Ok(None) && r2 == Ok(None) && r3 == Ok(None);
    } else if !(t.args[0].M? || t.args[0].V?) {
      if t.name == "add" {
        assert r0 == Err(AttributeError);
      } else {
        assert r0 == Ok(None) && r1 == Ok(None) && r2 == Err(AttributeError);
      }
    } else if t.name == "add" {
      assert r0 == (if t.args[0].name == "zero" then Ok(Some(t.args[1])) else Ok(None));
    } else {
      assert r0 == Ok(None) && r1 == Ok(None);
      assert r2 == (if t.args[0].name == "zero" then Ok(Some(M("zero", []))) else Ok(None));
    }
  }

  /** The arithmetic rules look only at the root: a head other than `add` or `mult` is never rewritten. */
  lemma {:induction false} ArithmeticRulesAreRootOnly(t: Val)
    requires t.M? || t.V?
    requires t.name != "add" && t.name != "mult"
    ensures TryArithmeticRules(t) == Ok(None)
  {
  }

  /** `_motifs_equal(m1, m2)`: structural on two Motifs, Python `==` otherwise. */
  function MotifsEqual(m1: Val, m2: Val): bool
    decreases m1
  {
    if !m1.M? || !m2.M? then m1 == m2
    else if m1.name != m2.name || |m1.args| != |m2.args| then false
    else forall i :: 0 <= i < |m1.args| ==> MotifsEqual(m1.args[i], m2.args[i])
  }

  /** `_motifs_equal` coincides with equality, so it is reflexive, symmetric and transitive. */
  lemma {:induction false} MotifsEqualIsEquality(m1: Val, m2: Val)
    ensures MotifsEqual(m1, m2) <==> m1 == m2
    decreases m1
  {
    if m1.M? && m2.M? && m1.name == m2.name && |m1.args| == |m2.args| {
      forall i | 0 <= i < |m1.args|
        ensures MotifsEqual(m1.args[i], m2.args[i]) <==> m1.args[i] == m2.args[i]
      {
        MotifsEqualIsEquality(m1.args[i], m2.args[i]);
      }
      if forall i :: 0 <= i < |m1.args| ==> m1.args[i] == m2.args[i] {
        assert m1.args == m2.args;
      }
    }
  }

  /** A lambda rule counts when its result is present, truthy, and differs from the term. */
  predicate Qualifies(rule: LambdaRule, t: Val) {
    var r := rule.apply(t);
    r.Some? && Truthy(r.value) && !MotifsEqual(r.value, t)
  }

  /** The loop over `lambda_domain.rules` in `apply_rules`: the first qualifying rule, reported as `λ-<name>`. */
  function FirstLambda(rules: seq<LambdaRule>, t: Val): Option<(Val, string)> {
    if rules == [] then None
    else if Qualifies(rules[0], t) then Some((rules[0].apply(t).value, "λ-" + rules[0].name))
    else FirstLambda(rules[1..], t)
  }

  /** `apply_rules(t)`: the rewrite and its rule text, or None. */
  function ApplyRulesOf(arith: bool, lambda: Option<LambdaDomain>, t: Val): Result<Option<(Val, string)>> {
    var fromLambda := if lambda.Some? then FirstLambda(lambda.value.rules, t) else None;
    if fromLambda.Some? then Ok(fromLambda)
    else if arith then
      var r :- TryArithmeticRules(t);
      if r.Some? && Truthy(r.value.0) then Ok(r) else Ok(None)
    else Ok(None)
  }

  /**
   * The lambda loop returns the FIRST rule of the list that qualifies, and
   * returns nothing exactly when no rule qualifies.
   */
  lemma {:induction false} FirstLambdaIsFirstQualifying(rules: seq<LambdaRule>, t: Val)
    ensures FirstLambda(rules, t) == None <==> forall j :: 0 <= j < |rules| ==> !Qualifies(rules[j], t)
    ensures forall j :: 0 <= j < |rules| && Qualifies(rules[j], t) && (forall i :: 0 <= i < j ==> !Qualifies(rules[i], t)) ==>
      FirstLambda(rules, t) == Some((rules[j].apply(t).value, "λ-" + rules[j].name))
  {
    if rules != [] {
      FirstLambdaIsFirstQualifying(rules[1..], t);
      assert forall j :: 1 <= j < |rules| ==> rules[j] == rules[1..][j - 1];
      if !Qualifies(rules[0], t) {
        forall j | 0 <= j < |rules| && Qualifies(rules[j], t) && (forall i :: 0 <= i < j ==> !Qualifies(rules[i], t))
          ensures FirstLambda(rules, t) == Some((rules[j].apply(t).value, "λ-" + rules[j].name))
        {
          assert j >= 1;
          assert Qualifies(rules[1..][j - 1], t);
          forall i | 0 <= i < j - 1 ensures !Qualifies(rules[1..][i], t) {
            assert rules[1..][i] == rules[i + 1];
          }
        }
      }
    }
  }

  /** Lambda rules take priority: when one qualifies, the arithmetic rules are not consulted. */
  lemma {:induction false} LambdaRulesFirst(arith: bool, d: LambdaDomain, t: Val)
    requires FirstLambda(d.rules, t).Some?
    ensures ApplyRulesOf(arith, Some(d), t) == Ok(FirstLambda(d.rules, t))
  {
  }

  /**
   * Whatever `apply_rules` returns is a truthy term; a lambda rewrite moreover
   * differs from its input. Without a lambda domain, it is the arithmetic
   * rewrite whenever that is truthy.
   */
  lemma {:induction false} ApplyRulesResult(arith: bool, lambda: Option<LambdaDomain>, t: Val)
    ensures ApplyRulesOf(arith, lambda, t).Ok? && ApplyRulesOf(arith, lambda, t).value.Some? ==>
      Truthy(ApplyRulesOf(arith, lambda, t).value.value.0)
    ensures lambda.None? && arith ==>
      ApplyRulesOf(arith, lambda, t) ==
        (match TryArithmeticRules(t)
         case Err(e) => Err(e)
         case Ok(r) => if r.Some? && Truthy(r.value.0) then Ok(r) else Ok(None))
    ensures lambda.None? && !arith ==> ApplyRulesOf(arith, lambda, t) == Ok(None)
  {
    if lambda.Some? {
      FirstLambdaTruthy(lambda.value.rules, t);
    }
  }

  lemma {:induction false} FirstLambdaTruthy(rules: seq<LambdaRule>, t: Val)
    ensures FirstLambda(rules, t).Some? ==> Truthy(FirstLambda(rules, t).value.0) && FirstLambda(rules, t).value.0 != t
  {
    if rules != [] {
      if Qualifies(rules[0], t) {
        MotifsEqualIsEquality(rules[0].apply(t).value, t);
      } else {
        FirstLambdaTruthy(rules[1..], t);
      }
    }
  }

  /** Prefix a trace to a run's result. */
  function Prepend(steps: seq<Step>, r: Result<(Val, seq<Step>)>): Result<(Val, seq<Step>)> {
    if r.Err? then r else Ok((r.value.0, steps + r.value.1))
  }

  /** One round of a rewriting loop: the new term and the rule text it is recorded under, or None to stop. */
  type Rounder = Val -> Result<Option<(Val, string)>>

  /** At most `k` rounds of a rewriting loop from `t`, numbering the recorded steps from `num`. */
  function RunWith(round: Rounder, t: Val, k: nat, num: int): Result<(Val, seq<Step>)>
    decreases k
  {
    if k == 0 then Ok((t, []))
    else
      var r :- round(t);
      if r.None? then Ok((t, []))
      else Prepend([Step(num, r.value.1, t, r.value.0)], RunWith(round, r.value.0, k - 1, num + 1))
  }

  /** The trace invariants of a loop run: numbered consecutive steps, each one round, chained end to end. */
  ghost predicate WellFormedTrace(round: Rounder, t: Val, res: Val, steps: seq<Step>, num: int) {
    && (steps == [] ==> res == t)
    && (steps != [] ==> steps[0].fromTerm == t && steps[|steps| - 1].toTerm == res)
    && (forall i :: 0 <= i < |steps| ==> steps[i].num == num + i)
    && (forall i :: 0 <= i < |steps| ==> round(steps[i].fromTerm) == Ok(Some((steps[i].toTerm, steps[i].rule))))
    && (forall i :: 0 <= i && i + 1 < |steps| ==> steps[i].toTerm == steps[i + 1].fromTerm)
  }

  /**
   * Every successful run takes at most `k` steps, numbered from `num`, each
   * one round from its `from` term to its `to` term, each starting where the
   * previous ended, from the input to the result; a run that stops before
   * the bound stops at a term on which the round gives nothing.
   */
  lemma {:induction false} RunWithTrace(round: Rounder, t: Val, k: nat, num: int)
    requires RunWith(round, t, k, num).Ok?
    ensures |RunWith(round, t, k, num).value.1| <= k
    ensures WellFormedTrace(round, t, RunWith(round, t, k, num).value.0, RunWith(round, t, k, num).value.1, num)
    ensures |RunWith(round, t, k, num).value.1| < k ==> round(RunWith(round, t, k, num).value.0) == Ok(None)
    decreases k
  {
    if k > 0 {
      var r := round(t).value;
      if r.Some? {
        var u := r.value.0;
        RunWithTrace(round, u, k - 1, num + 1);
        var rest := RunWith(round, u, k - 1, num + 1).value;
        var steps := [Step(num, r.value.1, t, u)] + rest.1;
        assert RunWith(round, t, k, num).value == (rest.0, steps);
        forall i | 1 <= i < |steps| ensures steps[i] == rest.1[i - 1] { }
      }
    }
  }

  /** A term on which the round gives nothing is its own result, in zero steps, whatever the bound. */
  lemma {:induction false} NormalFormIsFixed(round: Rounder, t: Val, k: nat, num: int)
    requires round(t) == Ok(None)
    ensures RunWith(round, t, k, num) == Ok((t, []))
  {
  }

  /** A round that rewrites `t` to `u`, after which nothing applies, gives a run of exactly that one step. */
  lemma {:induction false} OneStepThenStop(round: Rounder, t: Val, u: Val, rule: string, k: nat, num: int)
    requires k >= 1 && round(t) == Ok(Some((u, rule))) && round(u) == Ok(None)
    ensures RunWith(round, t, k, num) == Ok((u, [Step(num, rule, t, u)]))
  {
    NormalFormIsFixed(round, u, k - 1, num + 1);
    assert [Step(num, rule, t, u)] + [] == [Step(num, rule, t, u)];
  }

  /** One iteration of the `reduce_completely` loop: `apply_rules`, stopping when its result is None or falsy. */
  function RulesRound(arith: bool, lambda: Option<LambdaDomain>, t: Val): Result<Option<(Val, string)>> {
    var r :- ApplyRulesOf(arith, lambda, t);
    if r.None? || !Truthy(r.value.0) then Ok(None) else Ok(r)
  }

  function RulesOf(arith: bool, lambda: Option<LambdaDomain>): Rounder {
    t => RulesRound(arith, lambda, t)
  }

  /** At most `k` iterations of the `reduce_completely` loop from `t`, numbering steps from `num`. */
  function Run(arith: bool, lambda: Option<LambdaDomain>, t: Val, k: nat, num: int): Result<(Val, seq<Step>)> {
    RunWith(RulesOf(arith, lambda), t, k, num)
  }

  /** `reduce_completely(t, max_steps)`: the loop over `range(1, max_steps + 1)`. */
  function Reduce(arith: bool, lambda: Option<LambdaDomain>, t: Val, maxSteps: int): Result<(Val, seq<Step>)> {
    Run(arith, lambda, t, if maxSteps > 0 then maxSteps else 0, 1)
  }

  /**
   * A reduction takes at most `k` steps, numbered from `num`; each step is
   * the truthy rewrite `apply_rules` gives for its `from` term, each starts
   * where the previous ended; a run that stops before the bound stops at a
   * term no rule rewrites.
   */
  lemma {:induction false} RunTrace(arith: bool, lambda: Option<LambdaDomain>, t: Val, k: nat, num: int)
    requires Run(arith, lambda, t, k, num).Ok?
    ensures |Run(arith, lambda, t, k, num).value.1| <= k
    ensures WellFormedTrace(RulesOf(arith, lambda), t, Run(arith, lambda, t, k, num).value.0, Run(arith, lambda, t, k, num).value.1, num)
    ensures |Run(arith, lambda, t, k, num).value.1| < k ==> ApplyRulesOf(arith, lambda, Run(arith, lambda, t, k, num).value.0) == Ok(None)
  {
    RunWithTrace(RulesOf(arith, lambda), t, k, num);
    ApplyRulesResult(arith, lambda, Run(arith, lambda, t, k, num).value.0);
  }

  /**
   * Reducing the result of a reduction that stopped before its bound changes
   * nothing: `reduce_completely` is idempotent on its own normal forms.
   */
  lemma {:induction false} ReduceIsIdempotent(arith: bool, lambda: Option<LambdaDomain>, t: Val, maxSteps: int, again: int)
    requires Reduce(arith, lambda, t, maxSteps).Ok?
    requires |Reduce(arith, lambda, t, maxSteps).value.1| < maxSteps
    ensures Reduce(arith, lambda, Reduce(arith, lambda, t, maxSteps).value.0, again)
      == Ok((Reduce(arith, lambda, t, maxSteps).value.0, []))
  {
    RunTrace(arith, lambda, t, maxSteps, 1);
    var res := Reduce(arith, lambda, t, maxSteps).value.0;
    assert RulesOf(arith, lambda)(res) == Ok(None);
    NormalFormIsFixed(RulesOf(arith, lambda), res, if again > 0 then again else 0, 1);
  }

  /** The arithmetic meaning of a term: `zero`, `succ`, `add` and `mult` on their leading arguments. */
  function PeanoValue(t: Val): Option<nat> {
    if !t.M? then None
    else if t.name == "zero" then Some(0)
    else if t.name == "succ" && |t.args| >= 1 then
      var x := PeanoValue(t.args[0]);
      if x.Some? then Some(x.value + 1) else None
    else if t.name == "add" && |t.args| >= 2 then
      var x, y := PeanoValue(t.args[0]), PeanoValue(t.args[1]);
      if x.Some? && y.Some? then Some(x.value + y.value) else None
    else if t.name == "mult" && |t.args| >= 2 then
      var x, y := PeanoValue(t.args[0]), PeanoValue(t.args[1]);
      if x.Some? && y.Some? then Some(x.value * y.value) else None
    else None
  }

  /** On the numerals `to_number` reads, this meaning is `to_number`. */
  lemma {:induction false} PeanoValueExtendsToNumber(t: Val)
    requires ToNumber(t).Some?
    ensures PeanoValue(t) == ToNumber(t)
  {
    if t.name == "succ" {
      PeanoValueExtendsToNumber(t.args[0]);
    }
  }

  /** Each arithmetic rewrite is sound: it keeps the value of a term that has one. */
  lemma {:induction false} ArithmeticRewritePreservesValue(t: Val)
    requires TryArithmeticRules(t).Ok? && TryArithmeticRules(t).value.Some?
    requires PeanoValue(t).Some?
    ensures PeanoValue(TryArithmeticRules(t).value.value.0) == PeanoValue(t)
  {
    FiresOnAddOrMult(t);
    PeanoOperands(t);
    var a := t.args[0];
    if a.name != "zero" && a.name != "succ" {
      RewriteShape(t);
    } else if t.name == "add" {
      AddRewriteSound(t);
    } else {
      MultRewriteSound(t);
    }
  }

  lemma {:induction false} AddRewriteSound(t: Val)
    requires t.M? && t.name == "add" && |t.args| >= 2 && t.args[0].M? && (t.args[0].name == "zero" || t.args[0].name == "succ")
    requires PeanoValue(t.args[0]).Some? && PeanoValue(t.args[1]).Some?
    ensures TryArithmeticRules(t).Ok? && TryArithmeticRules(t).value.Some?
    ensures PeanoValue(TryArithmeticRules(t).value.value.0) == PeanoValue(t)
  {
    var a, b := t.args[0], t.args[1];
    RewriteShape(t);
    PeanoOfAdd(t);
    if a.name == "succ" {
      PeanoOfSucc(a);
      SuccStepValue(a.args[0], b, PeanoValue(a.args[0]).value, PeanoValue(b).value);
    } else {
      PeanoOfZero(a);
    }
  }

  lemma {:induction false} MultRewriteSound(t: Val)
    requires t.M? && t.name == "mult" && |t.args| >= 2 && t.args[0].M? && (t.args[0].name == "zero" || t.args[0].name == "succ")
    requires PeanoValue(t.args[0]).Some? && PeanoValue(t.args[1]).Some?
    ensures TryArithmeticRules(t).Ok? && TryArithmeticRules(t).value.Some?
    ensures PeanoValue(TryArithmeticRules(t).value.value.0) == PeanoValue(t)
  {
    var a, b := t.args[0], t.args[1];
    RewriteShape(t);
    PeanoOfMult(t);
    if a.name == "succ" {
      PeanoOfSucc(a);
      MultStepValue(a.args[0], b, PeanoValue(a.args[0]).value, PeanoValue(b).value);
    } else {
      PeanoOfZero(a);
    }
  }

  lemma {:induction false} FiresOnAddOrMult(t: Val)
    requires TryArithmeticRules(t).Ok? && TryArithmeticRules(t).value.Some?
    ensures (t.M? || t.V?) && (t.name == "add" || t.name == "mult")
  {
  }

  lemma {:induction false} PeanoOperands(t: Val)
    requires PeanoValue(t).Some?
    requires (t.M? || t.V?) && (t.name == "add" || t.name == "mult")
    ensures t.M? && |t.args| >= 2 && t.args[0].M? && PeanoValue(t.args[0]).Some? && PeanoValue(t.args[1]).Some?
  {
  }

  lemma {:induction false} PeanoOfAdd(t: Val)
    requires t.M? && t.name == "add" && |t.args| >= 2 && PeanoValue(t.args[0]).Some? && PeanoValue(t.args[1]).Some?
    ensures PeanoValue(t) == Some(PeanoValue(t.args[0]).value + PeanoValue(t.args[1]).value)
  {
  }

  lemma {:induction false} PeanoOfMult(t: Val)
    requires t.M? && t.name == "mult" && |t.args| >= 2 && PeanoValue(t.args[0]).Some? && PeanoValue(t.args[1]).Some?
    ensures PeanoValue(t) == Some(PeanoValue(t.args[0]).value * PeanoValue(t.args[1]).value)
  {
  }

  lemma {:induction false} PeanoOfSucc(a: Val)
    requires a.M? && a.name == "succ" && PeanoValue(a).Some?
    ensures |a.args| >= 1 && PeanoValue(a.args[0]).Some? && PeanoValue(a) == Some(PeanoValue(a.args[0]).value + 1)
  {
  }

  lemma {:induction false} PeanoOfZero(a: Val)
    requires a.M? && a.name == "zero"
    ensures PeanoValue(a) == Some(0)
  {
  }

  /** What the arithmetic rules rewrite a term with a motif as its first argument to. */
  lemma {:induction false} RewriteShape(t: Val)
    requires t.M? && |t.args| >= 2 && t.args[0].M?
    ensures t.name == "add" && t.args[0].name == "zero" ==> TryArithmeticRules(t) == Ok(Some((t.args[1], AddZeroText)))
    ensures t.name == "mult" && t.args[0].name == "zero" ==> TryArithmeticRules(t) == Ok(Some((M("zero", []), MultZeroText)))
    ensures t.name == "add" && t.args[0].name == "succ" && |t.args[0].args| >= 1 ==>
      TryArithmeticRules(t) == Ok(Some((M("succ", [M("add", [t.args[0].args[0], t.args[1]])]), AddSuccText)))
    ensures t.name == "mult" && t.args[0].name == "succ" && |t.args[0].args| >= 1 ==>
      TryArithmeticRules(t) == Ok(Some((M("add", [t.args[1], M("mult", [t.args[0].args[0], t.args[1]])]), MultSuccText)))
    ensures t.args[0].name != "zero" && t.args[0].name != "succ" ==> TryArithmeticRules(t) == Ok(None)
  {
  }

  lemma {:induction false} SuccStepValue(inner: Val, b: Val, x: nat, y: nat)
    requires PeanoValue(inner) == Some(x) && PeanoValue(b) == Some(y)
    ensures PeanoValue(M("succ", [M("add", [inner, b])])) == Some(x + 1 + y)
  {
    assert PeanoValue(M("add", [inner, b])) == Some(x + y);
  }

  lemma {:induction false} MultStepValue(inner: Val, b: Val, x: nat, y: nat)
    requires PeanoValue(inner) == Some(x) && PeanoValue(b) == Some(y)
    ensures PeanoValue(M("add", [b, M("mult", [inner, b])])) == Some((x + 1) * y)
  {
    assert PeanoValue(M("mult", [inner, b])) == Some(x * y);
    assert (x + 1) * y == y + x * y;
  }

  /** With only the arithmetic domain, a whole reduction keeps the value of its input. */
  lemma {:induction false} RunPreservesValue(t: Val, k: nat, num: int)
    requires Run(true, None, t, k, num).Ok?
    requires PeanoValue(t).Some?
    ensures PeanoValue(Run(true, None, t, k, num).value.0) == PeanoValue(t)
    decreases k
  {
    if k > 0 {
      var r := ApplyRulesOf(true, None, t);
      if r.value.Some? && Truthy(r.value.value.0) {
        ArithmeticRewritePreservesValue(t);
        RunPreservesValue(r.value.value.0, k - 1, num + 1);
      }
    }
  }

  /**
   * Rewriting only at the root leaves `add(ONE, ZERO)` stuck after one step
   * at `succ(add(zero, zero))`: its value is 1, but it is no numeral.
   */
  lemma {:induction false} AddOneZeroStopsUnderSucc()
    ensures Reduce(true, None, Add(Numeral(1), Zero()), 100) ==
      Ok((Succ(Add(Zero(), Zero())), [Step(1, AddSuccText, Add(Numeral(1), Zero()), Succ(Add(Zero(), Zero())))]))
    ensures ToNumber(Succ(Add(Zero(), Zero()))) == None
    ensures PeanoValue(Succ(Add(Zero(), Zero()))) == Some(1)
  {
    var t := Add(Numeral(1), Zero());
    var u := Succ(Add(Zero(), Zero()));
    assert Numeral(1) == Succ(Zero());
    assert ApplyRulesOf(true, None, t) == Ok(Some((u, AddSuccText)));
    assert ApplyRulesOf(true, None, u) == Ok(None);
    OneStepThenStop(RulesOf(true, None), t, u, AddSuccText, 100, 1);
  }

  class RuleEngine {
    /** Whether an arithmetic domain was given (a domain object is always truthy). */
    const arithmetic: bool
    const lambda: Option<LambdaDomain>
    var rules: seq<RuleEntry>

    constructor (arithmetic: bool, lambda: Option<LambdaDomain>)
      ensures this.arithmetic == arithmetic && this.lambda == lambda
      ensures rules == SetupEntries(arithmetic, lambda)
    {
      this.arithmetic := arithmetic;
      this.lambda := lambda;
      rules := [];
      new;
      SetupRules();
    }

    /** `setup_rules`: extend `rules` with the arithmetic entries, then the lambda domain's. */
    method SetupRules()
      modifies this`rules
      ensures rules == old(rules) + SetupEntries(arithmetic, lambda)
    {
      if arithmetic {
        rules := rules + ArithmeticEntries;
      }
      if lambda.Some? {
        rules := rules + LambdaEntries(lambda.value.rules);
      }
    }

    /** `apply_rules(t)`. It reads the domains, not `rules`. */
    method ApplyRules(t: Val) returns (r: Result<Option<(Val, string)>>)
      ensures r == ApplyRulesOf(arithmetic, lambda, t)
    {
      if lambda.Some? {
        var rs := lambda.value.rules;
        var i := 0;
        while i < |rs|
          invariant 0 <= i <= |rs|
          invariant FirstLambda(rs, t) == FirstLambda(rs[i..], t)
        {
          var result := rs[i].apply(t);
          assert rs[i..][0] == rs[i];
          if result.Some? && Truthy(result.value) && !MotifsEqual(result.value, t) {
            return Ok(Some((result.value, "λ-" + rs[i].name)));
          }
          assert rs[i..][1..] == rs[i + 1..];
          i := i + 1;
        }
      }
      if arithmetic {
        var res := TryArithmeticRules(t);
        if res.Err? {
          return Err(res.error);
        }
        if res.value.Some? && Truthy(res.value.value.0) {
          return Ok(res.value);
        }
      }
      return Ok(None);
    }

    /** `reduce_completely(t, max_steps)`: the final term and the recorded steps. */
    method ReduceCompletely(motif: Val, maxSteps: int) returns (r: Result<(Val, seq<Step>)>)
      ensures r == Reduce(arithmetic, lambda, motif, maxSteps)
    {
      var bound: nat := if maxSteps > 0 then maxSteps else 0;
      var steps: seq<Step> := [];
      var current := motif;
      var stepNum := 1;
      var first := Run(arithmetic, lambda, motif, bound, 1);
      assert first.Ok? ==> [] + first.value.1 == first.value.1;
      while stepNum <= maxSteps
        invariant 1 <= stepNum <= bound + 1
        invariant Reduce(arithmetic, lambda, motif, maxSteps) == Prepend(steps, Run(arithmetic, lambda, current, bound - (stepNum - 1), stepNum))
      {
        var res := ApplyRules(current);
        if res.Err? {
          return Err(res.error);
        }
        if res.value.None? || !Truthy(res.value.value.0) {
          break;
        }
        var result := res.value.value.0;
        var tail := Run(arithmetic, lambda, result, bound - stepNum, stepNum + 1);
        assert tail.Ok? ==> (steps + ([Step(stepNum, res.value.value.1, current, result)] + tail.value.1)
          == (steps + [Step(stepNum, res.value.value.1, current, result)]) + tail.value.1);
        steps := steps + [Step(stepNum, res.value.value.1, current, result)];
        current := result;
        stepNum := stepNum + 1;
      }
      assert steps + [] == steps;
      return Ok((current, steps));
    }
  }
}
