/**
 * Lambda calculus written as ground motifs, rcx_pi/domains/lambda_via_rcx.py.
 * The combinators use `λ` as head and nullary motifs such as `μ(x)` as
 * variables; the three reduction projections use `μ(var, "x")` nodes, which
 * are Motifs and not pattern Variables, so each projection fires only on a
 * term literally equal to its pattern.
 */
module LambdaViaRcx {
  import opened Base
  import opened Motifs
  import opened Projections
  import opened Patterns
  import Rules

  /** `μ(name)` with no arguments, the combinators' variables. */
  function Nullary(name: string): Val { M(name, []) }

  /** `app(f, a) = μ("app", f, a)`. */
  function App(f: Val, a: Val): Val { M("app", [f, a]) }

  /** `lambda_abs(v, body) = μ("λ", μ("var", v), body)`. */
  function LambdaAbs(v: Val, body: Val): Val { M("λ", [M("var", [v]), body]) }

  /** `μ("var", name)`: a Motif holding a plain string. */
  function VarNode(name: string): Val { M("var", [Atom(name)]) }

  const CombI: Val := M("λ", [Nullary("x"), Nullary("x")])
  const CombK: Val := M("λ", [Nullary("x"), M("λ", [Nullary("y"), Nullary("x")])])
  const CombS: Val := M("λ", [Nullary("x"), M("λ", [Nullary("y"), M("λ", [Nullary("z"),
    App(App(Nullary("x"), Nullary("z")), App(Nullary("y"), Nullary("z")))])])])
  const ChurchFalse: Val := M("λ", [Nullary("x"), M("λ", [Nullary("y"), Nullary("y")])])
  const ChurchZero: Val := M("λ", [Nullary("f"), M("λ", [Nullary("x"), Nullary("x")])])
  const ChurchOne: Val := M("λ", [Nullary("f"), M("λ", [Nullary("x"), App(Nullary("f"), Nullary("x"))])])
  const ChurchTwo: Val := M("λ", [Nullary("f"), M("λ", [Nullary("x"), App(Nullary("f"), App(Nullary("f"), Nullary("x")))])])

  /** β-reduction `(λx.M)N → M[x:=N]`, as a marker term. */
  const BetaProjection: Projection := Projection(
    App(M("λ", [VarNode("x"), VarNode("M")]), VarNode("N")),
    M("substitute", [VarNode("M"), VarNode("x"), VarNode("N")]))

  /** `I x → x`. */
  const IdentityProjection: Projection := Projection(App(CombI, VarNode("x")), VarNode("x"))

  /** `K x y → x`. */
  const ConstantProjection: Projection := Projection(App(App(CombK, VarNode("x")), VarNode("y")), VarNode("x"))

  const LambdaProjections: seq<Projection> := [BetaProjection, IdentityProjection, ConstantProjection]

  /** The rule text of a step: `projection: <pattern> → <target>`. */
  function ProjectionRuleText(p: Projection): string {
    "projection: " + Str(p.pattern) + " → " + Str(p.target)
  }

  /** The inner loop of `apply_projections`: the first projection whose result is truthy and differs from `t`. */
  function FirstProjection(ps: seq<Projection>, t: Val): Result<Option<(Val, Projection)>> {
    if ps == [] then Ok(None)
    else
      var r :- ApplyProjection(t, ps[0]);
      if r.Some? && Truthy(r.value) && r.value != t then Ok(Some((r.value, ps[0])))
      else FirstProjection(ps[1..], t)
  }

  /** One round of the outer loop: the first qualifying projection's result, recorded under its rule text. */
  function ProjRound(ps: seq<Projection>, t: Val): Result<Option<(Val, string)>> {
    var f :- FirstProjection(ps, t);
    if f.None? then Ok(None) else Ok(Some((f.value.0, ProjectionRuleText(f.value.1))))
  }

  function ProjectionsOf(ps: seq<Projection>): Rules.Rounder {
    t => ProjRound(ps, t)
  }

  /** At most `k` rounds of the outer loop from `t`, numbering steps from `num`. */
  function ProjRun(ps: seq<Projection>, t: Val, k: nat, num: int): Result<(Val, seq<Rules.Step>)> {
    Rules.RunWith(ProjectionsOf(ps), t, k, num)
  }

  /** `apply_projections(t, max_steps)`: the loop over `range(max_steps)`. */
  function ApplyProjectionsOf(ps: seq<Projection>, t: Val, maxSteps: int): Result<(Val, seq<Rules.Step>)> {
    ProjRun(ps, t, if maxSteps > 0 then maxSteps else 0, 1)
  }

  /** The fields that `__init__` sets and nothing changes afterwards. */
  class LambdaViaRCX {
    const I: Val
    const K: Val
    const S: Val
    const TRUE: Val
    const FALSE: Val
    const ZERO: Val
    const ONE: Val
    const TWO: Val
    const projections: seq<Projection>

    constructor ()
      ensures I == CombI && K == CombK && S == CombS && TRUE == CombK && FALSE == ChurchFalse
      ensures ZERO == ChurchZero && ONE == ChurchOne && TWO == ChurchTwo
      ensures projections == LambdaProjections
    {
      I := CombI;
      K := CombK;
      S := CombS;
      TRUE := CombK;
      FALSE := ChurchFalse;
      ZERO := ChurchZero;
      ONE := ChurchOne;
      TWO := ChurchTwo;
      projections := LambdaProjections;
    }

    /** The inner loop of `apply_projections`: try each projection in order on `current`. */
    method FirstQualifying(current: Val) returns (r: Result<Option<(Val, Projection)>>)
      ensures r == FirstProjection(projections, current)
    {
      var j := 0;
      assert projections[0..] == projections;
      while j < |projections|
        invariant 0 <= j <= |projections|
        invariant FirstProjection(projections, current) == FirstProjection(projections[j..], current)
      {
        var result := ApplyProjection(current, projections[j]);
        assert projections[j..][0] == projections[j] && projections[j..][1..] == projections[j + 1..];
        if result.Err? {
          return Err(result.error);
        }
        if result.value.Some? && Truthy(result.value.value) && result.value.value != current {
          return Ok(Some((result.value.value, projections[j])));
        }
        j := j + 1;
      }
      return Ok(None);
    }

    /** `apply_projections(motif, max_steps)`: the outer loop over the step numbers. */
    method ApplyProjections(motif: Val, maxSteps: int) returns (r: Result<(Val, seq<Rules.Step>)>)
      ensures r == ApplyProjectionsOf(projections, motif, maxSteps)
    {
      var bound: nat := if maxSteps > 0 then maxSteps else 0;
      var current := motif;
      var steps: seq<Rules.Step> := [];
      var whole := ProjRun(projections, motif, bound, 1);
      assert whole.Ok? ==> [] + whole.value.1 == whole.value.1;
      var step := 0;
      while step < maxSteps
        invariant 0 <= step <= bound
        invariant whole == Rules.Prepend(steps, ProjRun(projections, current, bound - step, step + 1))
      {
        var found := FirstQualifying(current);
        if found.Err? {
          return Err(found.error);
        }
        if found.value.None? {
          break;
        }
        var (result, projection) := found.value.value;
        var s := Rules.Step(step + 1, ProjectionRuleText(projection), current, result);
        var tail := ProjRun(projections, result, bound - step - 1, step + 2);
        assert tail.Ok? ==> steps + ([s] + tail.value.1) == (steps + [s]) + tail.value.1;
        steps := steps + [s];
        current := result;
        step := step + 1;
      }
      assert steps + [] == steps;
      return Ok((current, steps));
    }
  }

  /** `TRUE` is `K`, and the two builders give the nodes the combinators are made of. */
  lemma {:induction false} CombinatorShapes(v: Val, body: Val, f: Val, a: Val)
    ensures CombK == M("λ", [Nullary("x"), M("λ", [Nullary("y"), Nullary("x")])])
    ensures App(f, a).name == "app" && App(f, a).args == [f, a]
    ensures LambdaAbs(v, body).name == "λ" && LambdaAbs(v, body).args == [M("var", [v]), body]
    ensures Vars(CombI) == {} && Vars(CombK) == {} && Vars(CombS) == {}
  {
  }

  /** The three projections contain no pattern Variable: each fires exactly on its own pattern and yields its target. */
  lemma {:induction false} ProjectionsFireOnlyOnTheirPattern(t: Val, i: nat)
    requires i < |LambdaProjections|
    ensures ApplyProjection(t, LambdaProjections[i]) ==
      if t == LambdaProjections[i].pattern then Ok(Some(LambdaProjections[i].target)) else Ok(None)
  {
    GroundProjection(t, LambdaProjections[i]);
  }

  /** The projection's pattern is the term itself, and its target is truthy and differs from it. */
  predicate FiresOn(p: Projection, t: Val) {
    p.pattern == t && Truthy(p.target) && p.target != t
  }

  /** The inner loop picks the first projection, in list order, whose pattern is the term itself and whose target is truthy and different from it. */
  lemma {:induction false} FirstProjectionIsFirstEqualPattern(ps: seq<Projection>, t: Val)
    requires forall i :: 0 <= i < |ps| ==> Vars(ps[i].pattern) == {} && Vars(ps[i].target) == {}
    ensures FirstProjection(ps, t).Ok?
    ensures FirstProjection(ps, t).value.None? <==> forall i :: 0 <= i < |ps| ==> !FiresOn(ps[i], t)
    ensures FirstProjection(ps, t).value.Some? ==>
      exists i :: 0 <= i < |ps| && FiresOn(ps[i], t)
        && FirstProjection(ps, t).value.value == (ps[i].target, ps[i])
        && forall j :: 0 <= j < i ==> !FiresOn(ps[j], t)
  {
    FirstProjectionNoneIff(ps, t);
    if FirstProjection(ps, t).value.Some? {
      FirstProjectionFound(ps, t);
    }
  }

  lemma {:induction false} FirstProjectionNoneIff(ps: seq<Projection>, t: Val)
    requires forall i :: 0 <= i < |ps| ==> Vars(ps[i].pattern) == {} && Vars(ps[i].target) == {}
    ensures FirstProjection(ps, t).Ok?
    ensures FirstProjection(ps, t).value.None? <==> forall i :: 0 <= i < |ps| ==> !FiresOn(ps[i], t)
  {
    if ps != [] {
      GroundProjection(t, ps[0]);
      FirstProjectionNoneIff(ps[1..], t);
      assert forall i :: 1 <= i < |ps| ==> ps[i] == ps[1..][i - 1];
    }
  }

  lemma {:induction false} FirstProjectionFound(ps: seq<Projection>, t: Val)
    requires forall i :: 0 <= i < |ps| ==> Vars(ps[i].pattern) == {} && Vars(ps[i].target) == {}
    requires FirstProjection(ps, t).Ok? && FirstProjection(ps, t).value.Some?
    ensures
      exists i :: 0 <= i < |ps| && FiresOn(ps[i], t)
        && FirstProjection(ps, t).value.value == (ps[i].target, ps[i])
        && forall j :: 0 <= j < i ==> !FiresOn(ps[j], t)
  {
    GroundProjection(t, ps[0]);
    if FiresOn(ps[0], t) {
      assert FirstProjection(ps, t).value.value == (ps[0].target, ps[0]);
    } else {
      var tail := ps[1..];
      assert FirstProjection(ps, t) == FirstProjection(tail, t);
      assert forall i :: 0 <= i < |tail| ==> tail[i] == ps[i + 1];
      FirstProjectionFound(tail, t);
      var i :| 0 <= i < |tail| && FiresOn(tail[i], t)
        && FirstProjection(tail, t).value.value == (tail[i].target, tail[i])
        && forall j :: 0 <= j < i ==> !FiresOn(tail[j], t);
      NoneFireBeforeShift(ps, t, i);
    }
  }

  lemma {:induction false} NoneFireBeforeShift(ps: seq<Projection>, t: Val, i: nat)
    requires 0 <= i < |ps| - 1 && !FiresOn(ps[0], t)
    requires forall j :: 0 <= j < i ==> !FiresOn(ps[1..][j], t)
    ensures FiresOn(ps[1..][i], t) ==> FiresOn(ps[i + 1], t)
    ensures forall j :: 0 <= j < i + 1 ==> !FiresOn(ps[j], t)
  {
    forall j | 1 <= j < i + 1
      ensures !FiresOn(ps[j], t)
    {
      assert ps[j] == ps[1..][j - 1];
    }
  }

  /**
   * A successful run takes at most `k` steps, numbered from `num`, each the
   * first qualifying projection of its `from` term, chained from the input to
   * the result; a run that stops early stops where no projection qualifies.
   */
  lemma {:induction false} ProjRunTrace(ps: seq<Projection>, t: Val, k: nat, num: int)
    requires ProjRun(ps, t, k, num).Ok?
    ensures |ProjRun(ps, t, k, num).value.1| <= k
    ensures Rules.WellFormedTrace(ProjectionsOf(ps), t, ProjRun(ps, t, k, num).value.0, ProjRun(ps, t, k, num).value.1, num)
    ensures |ProjRun(ps, t, k, num).value.1| < k ==> FirstProjection(ps, ProjRun(ps, t, k, num).value.0) == Ok(None)
  {
    Rules.RunWithTrace(ProjectionsOf(ps), t, k, num);
  }

  lemma {:induction false} ProjectionsAreGround()
    ensures Vars(BetaProjection.pattern) == {} && Vars(BetaProjection.target) == {}
    ensures Vars(IdentityProjection.pattern) == {} && Vars(IdentityProjection.target) == {}
    ensures Vars(ConstantProjection.pattern) == {} && Vars(ConstantProjection.target) == {}
  {
  }

  /** `app(I, μ(example))` is no projection's pattern: it comes back unchanged, with no steps. */
  lemma {:induction false} IdentityOnExampleIsUnchanged()
    ensures ApplyProjectionsOf(LambdaProjections, App(CombI, Nullary("example")), 10) == Ok((App(CombI, Nullary("example")), []))
  {
    var t := App(CombI, Nullary("example"));
    ProjectionsAreGround();
    GroundProjection(t, BetaProjection);
    GroundProjection(t, IdentityProjection);
    GroundProjection(t, ConstantProjection);
    var lp := LambdaProjections;
    assert lp[1..][0] == IdentityProjection && lp[1..][1..][0] == ConstantProjection && lp[1..][1..][1..] == [];
    assert FirstProjection(lp[1..][1..], t) == FirstProjection(lp[1..][1..][1..], t) == Ok(None);
    assert FirstProjection(lp, t) == FirstProjection(lp[1..], t) == FirstProjection(lp[1..][1..], t);
  }

  /** The beta projection turns its own pattern into the `substitute` marker in one step, and no projection rewrites the marker. */
  lemma {:induction false} BetaPatternStopsAtMarker()
    ensures ApplyProjectionsOf(LambdaProjections, BetaProjection.pattern, 10) ==
      Ok((BetaProjection.target, [Rules.Step(1, ProjectionRuleText(BetaProjection), BetaProjection.pattern, BetaProjection.target)]))
  {
    var t := BetaProjection.pattern;
    var u := BetaProjection.target;
    BetaFiresOnItsPattern();
    NothingRewritesMarker();
    var rounds := ProjectionsOf(LambdaProjections);
    assert rounds(u) == Ok(None);
    assert rounds(t) == Ok(Some((u, ProjectionRuleText(BetaProjection))));
    Rules.OneStepThenStop(rounds, t, u, ProjectionRuleText(BetaProjection), 10, 1);
  }

  lemma {:induction false} BetaFiresOnItsPattern()
    ensures FirstProjection(LambdaProjections, BetaProjection.pattern) == Ok(Some((BetaProjection.target, BetaProjection)))
  {
    var p := BetaProjection;
    ProjectionsAreGround();
    assert p.target.name != p.pattern.name;
    FirstPatternFires(LambdaProjections, p.pattern);
  }

  /** A Variable-free first projection whose pattern is the term, with a truthy and different target, is the one taken. */
  lemma {:induction false} FirstPatternFires(ps: seq<Projection>, t: Val)
    requires ps != [] && Vars(ps[0].pattern) == {} && Vars(ps[0].target) == {}
    requires t == ps[0].pattern && Truthy(ps[0].target) && ps[0].target != t
    ensures FirstProjection(ps, t) == Ok(Some((ps[0].target, ps[0])))
  {
    GroundProjection(t, ps[0]);
  }

  lemma {:induction false} NothingRewritesMarker()
    ensures FirstProjection(LambdaProjections, BetaProjection.target) == Ok(None)
  {
    var u := BetaProjection.target;
    var lp := LambdaProjections;
    ProjectionsAreGround();
    assert forall i :: 0 <= i < |lp| ==> Vars(lp[i].pattern) == {} && Vars(lp[i].target) == {};
    assert forall i :: 0 <= i < |lp| ==> lp[i].pattern.name == "app" && lp[i].pattern != u;
    FirstProjectionIsFirstEqualPattern(lp, u);
  }
}
