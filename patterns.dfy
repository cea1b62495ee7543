/**
 * The matcher and instantiation of rcx_pi/core/patterns.py.
 *
 * `pattern_match` takes the bindings dictionary by reference and adds to it
 * as it goes, also on the way to a failure. The model passes the dictionary
 * in and hands its final contents back: `Match` states what it becomes, and
 * the method `PatternMatch` is the argument loop of the source.
 */
module Patterns {
  import opened Base
  import opened Motifs
  import opened Projections

  /** The bindings dictionary. Variables hash and compare by name, so a key is a Variable's name. */
  type Bindings = map<string, Val>

  /** What `pattern_match` returns, and the dictionary it leaves behind. */
  datatype MatchOutcome = MatchOutcome(ok: bool, bindings: Bindings)

  /** `pattern_match(t, p, b)`. */
  function Match(t: Val, p: Val, b: Bindings): MatchOutcome
    decreases p
  {
    if p.V? then
      if p.name in b then MatchOutcome(b[p.name] == t, b) else MatchOutcome(true, b[p.name := t])
    else if !t.M? || !p.M? then MatchOutcome(t == p, b)
    else if t.name != p.name || |t.args| != |p.args| then MatchOutcome(false, b)
    else MatchArgs(t.args, p.args, b)
  }

  /** The loop over argument pairs: in order, each match seeing the bindings of the earlier ones, stopping at the first failure. */
  function MatchArgs(ts: seq<Val>, ps: seq<Val>, b: Bindings): MatchOutcome
    requires |ts| == |ps|
    decreases ps
  {
    if ps == [] then MatchOutcome(true, b)
    else
      var r := Match(ts[0], ps[0], b);
      if !r.ok then r else MatchArgs(ts[1..], ps[1..], r.bindings)
  }

  method PatternMatch(t: Val, p: Val, b: Bindings) returns (ok: bool, b': Bindings)
    ensures MatchOutcome(ok, b') == Match(t, p, b)
    decreases p
  {
    if p.V? {
      if p.name in b {
        return b[p.name] == t, b;
      }
      return true, b[p.name := t];
    }
    if !t.M? || !p.M? {
      return t == p, b;
    }
    if t.name != p.name || |t.args| != |p.args| {
      return false, b;
    }
    b' := b;
    var i := 0;
    while i < |p.args|
      invariant 0 <= i <= |p.args|
      invariant MatchArgs(t.args, p.args, b) == MatchArgs(t.args[i..], p.args[i..], b')
    {
      var argOk;
      argOk, b' := PatternMatch(t.args[i], p.args[i], b');
      if !argOk {
        return false, b';
      }
      i := i + 1;
    }
    ok := true;
  }

  /** The names of the Variables that `substitute_variables` looks up: it descends into Motifs only. */
  function Vars(p: Val): set<string>
    decreases p
  {
    match p
    case V(x) => {x}
    case M(_, xs) => VarsAll(xs)
    case _ => {}
  }

  function VarsAll(ps: seq<Val>): set<string>
    decreases ps
  {
    if ps == [] then {} else Vars(ps[0]) + VarsAll(ps[1..])
  }

  /** `b'` keeps every binding of `b`. */
  ghost predicate Extends(b: Bindings, b': Bindings) {
    forall k :: k in b ==> k in b' && b'[k] == b[k]
  }

  /**
   * Matching never overwrites a binding, it only adds keys, and only keys of
   * the pattern's Variables; when it succeeds it has bound all of them.
   */
  lemma {:induction false} MatchExtends(t: Val, p: Val, b: Bindings)
    ensures Extends(b, Match(t, p, b).bindings)
    ensures Match(t, p, b).bindings.Keys <= b.Keys + Vars(p)
    ensures Match(t, p, b).ok ==> Match(t, p, b).bindings.Keys == b.Keys + Vars(p)
    decreases p
  {
    if !p.V? && t.M? && p.M? && t.name == p.name && |t.args| == |p.args| {
      MatchArgsExtends(t.args, p.args, b);
    }
  }

  lemma {:induction false} MatchArgsExtends(ts: seq<Val>, ps: seq<Val>, b: Bindings)
    requires |ts| == |ps|
    ensures Extends(b, MatchArgs(ts, ps, b).bindings)
    ensures MatchArgs(ts, ps, b).bindings.Keys <= b.Keys + VarsAll(ps)
    ensures MatchArgs(ts, ps, b).ok ==> MatchArgs(ts, ps, b).bindings.Keys == b.Keys + VarsAll(ps)
    decreases ps
  {
    if ps != [] {
      var r := Match(ts[0], ps[0], b);
      MatchExtends(ts[0], ps[0], b);
      if r.ok {
        MatchArgsExtends(ts[1..], ps[1..], r.bindings);
      }
    }
  }

  /** No rollback: `f($x, c)` against `f(a, b)` fails and still leaves `$x` bound to `a`. */
  lemma {:induction false} FailureKeepsEarlierBindings()
    ensures Match(M("f", [M("a", []), M("b", [])]), M("f", [V("x"), M("c", [])]), map[])
         == MatchOutcome(false, map["x" := M("a", [])])
  {
  }

  /** Non-linear patterns: `f($x, $x)` matches `f(a, a)` binding `$x` to `a`, and does not match `f(a, b)`. */
  lemma {:induction false} NonLinearConsistency()
    ensures Match(M("f", [M("a", []), M("a", [])]), M("f", [V("x"), V("x")]), map[])
         == MatchOutcome(true, map["x" := M("a", [])])
    ensures !Match(M("f", [M("a", []), M("b", [])]), M("f", [V("x"), V("x")]), map[]).ok
  {
    var b1 := map["x" := M("a", [])];
    assert Match(M("a", []), V("x"), map[]) == MatchOutcome(true, b1);
    assert Match(M("b", []), V("x"), b1) == MatchOutcome(false, b1);
  }

  /** Two Motifs with different names or different arities never match, and nothing is bound. */
  lemma {:induction false} NameOrArityMismatch(t: Val, p: Val, b: Bindings)
    requires t.M? && p.M? && (t.name != p.name || |t.args| != |p.args|)
    ensures Match(t, p, b) == MatchOutcome(false, b)
  {
  }

  /** A Variable-free pattern matches exactly the equal term, and binds nothing. */
  lemma {:induction false} GroundMatchIsEquality(t: Val, p: Val, b: Bindings)
    requires Vars(p) == {}
    ensures Match(t, p, b) == MatchOutcome(t == p, b)
    decreases p
  {
    if t.M? && p.M? && t.name == p.name && |t.args| == |p.args| {
      GroundMatchArgsIsEquality(t.args, p.args, b);
    }
  }

  lemma {:induction false} GroundMatchArgsIsEquality(ts: seq<Val>, ps: seq<Val>, b: Bindings)
    requires |ts| == |ps| && VarsAll(ps) == {}
    ensures MatchArgs(ts, ps, b) == MatchOutcome(ts == ps, b)
    decreases ps
  {
    if ps != [] {
      GroundMatchIsEquality(ts[0], ps[0], b);
      GroundMatchArgsIsEquality(ts[1..], ps[1..], b);
      assert ts == [ts[0]] + ts[1..];
      assert ps == [ps[0]] + ps[1..];
    }
  }

  /** `substitute_variables(template, b)`. A Variable without a binding raises KeyError; a str or a list is returned as it is. */
  function SubstituteVariables(template: Val, b: Bindings): Result<Val>
    decreases template
  {
    match template
    case V(x) => if x in b then Ok(b[x]) else Err(KeyError)
    case M(n, xs) =>
      var ys :- SubstituteAll(xs, b);
      Ok(M(n, ys))
    case _ => Ok(template)
  }

  function SubstituteAll(xs: seq<Val>, b: Bindings): (r: Result<seq<Val>>)
    ensures r.Ok? ==> |r.value| == |xs|
    decreases xs
  {
    if xs == [] then Ok([])
    else
      var y :- SubstituteVariables(xs[0], b);
      var ys :- SubstituteAll(xs[1..], b);
      Ok([y] + ys)
  }

  /** Instantiation succeeds iff every Variable it reaches is bound; otherwise it raises KeyError. */
  lemma {:induction false} SubstituteDefined(p: Val, b: Bindings)
    ensures SubstituteVariables(p, b).Ok? <==> Vars(p) <= b.Keys
    ensures SubstituteVariables(p, b).Err? ==> SubstituteVariables(p, b).error == KeyError
    decreases p
  {
    if p.M? {
      SubstituteAllDefined(p.args, b);
    }
  }

  lemma {:induction false} SubstituteAllDefined(xs: seq<Val>, b: Bindings)
    ensures SubstituteAll(xs, b).Ok? <==> VarsAll(xs) <= b.Keys
    ensures SubstituteAll(xs, b).Err? ==> SubstituteAll(xs, b).error == KeyError
    decreases xs
  {
    if xs != [] {
      SubstituteDefined(xs[0], b);
      SubstituteAllDefined(xs[1..], b);
    }
  }

  /**
   * Round trip: when `t` matches `p`, instantiating `p` with the resulting
   * bindings, or with any dictionary that keeps them, gives back `t`.
   */
  lemma {:induction false} MatchThenSubstitute(t: Val, p: Val, b: Bindings, bb: Bindings)
    requires Match(t, p, b).ok
    requires Extends(Match(t, p, b).bindings, bb)
    ensures SubstituteVariables(p, bb) == Ok(t)
    decreases p
  {
    if !p.V? && p.M? {
      MatchArgsThenSubstitute(t.args, p.args, b, bb);
    }
  }

  lemma {:induction false} MatchArgsThenSubstitute(ts: seq<Val>, ps: seq<Val>, b: Bindings, bb: Bindings)
    requires |ts| == |ps|
    requires MatchArgs(ts, ps, b).ok
    requires Extends(MatchArgs(ts, ps, b).bindings, bb)
    ensures SubstituteAll(ps, bb) == Ok(ts)
    decreases ps
  {
    if ps != [] {
      var r := Match(ts[0], ps[0], b);
      MatchArgsExtends(ts[1..], ps[1..], r.bindings);
      MatchThenSubstitute(ts[0], ps[0], b, bb);
      MatchArgsThenSubstitute(ts[1..], ps[1..], r.bindings, bb);
      assert ts == [ts[0]] + ts[1..];
    }
  }

  /** The round trip from an empty dictionary, as `apply_projection` starts. */
  lemma {:induction false} MatchRoundTrip(t: Val, p: Val)
    requires Match(t, p, map[]).ok
    ensures SubstituteVariables(p, Match(t, p, map[]).bindings) == Ok(t)
  {
    MatchThenSubstitute(t, p, map[], Match(t, p, map[]).bindings);
  }

  /**
   * `apply_projection(t, proj)` (and `proj.apply(t)`): None when the pattern
   * does not match, otherwise the instantiated target, which raises KeyError
   * when the target has a Variable that the match did not bind.
   */
  function ApplyProjection(t: Val, proj: Projection): (r: Result<Option<Val>>)
    ensures r == Ok(None) <==> !Match(t, proj.pattern, map[]).ok
  {
    var m := Match(t, proj.pattern, map[]);
    if m.ok then
      var v :- SubstituteVariables(proj.target, m.bindings);
      Ok(Some(v))
    else Ok(None)
  }

  /**
   * A rule whose target mentions a Variable absent from its pattern is
   * accepted when built and raises KeyError as soon as its pattern matches;
   * a rule whose target's Variables all occur in the pattern never raises.
   */
  lemma {:induction false} UnboundTargetRaises(t: Val, proj: Projection)
    requires Match(t, proj.pattern, map[]).ok
    ensures ApplyProjection(t, proj).Err? <==> !(Vars(proj.target) <= Vars(proj.pattern))
    ensures ApplyProjection(t, proj).Err? ==> ApplyProjection(t, proj).error == KeyError
  {
    MatchExtends(t, proj.pattern, map[]);
    SubstituteDefined(proj.target, Match(t, proj.pattern, map[]).bindings);
  }

  /** A rule whose pattern has no Variables fires only on a term equal to its pattern, and yields its target unchanged. */
  lemma {:induction false} GroundProjection(t: Val, proj: Projection)
    requires Vars(proj.pattern) == {} && Vars(proj.target) == {}
    ensures ApplyProjection(t, proj) == if t == proj.pattern then Ok(Some(proj.target)) else Ok(None)
  {
    GroundMatchIsEquality(t, proj.pattern, map[]);
    GroundSubstitute(proj.target, map[]);
  }

  /** Instantiating a Variable-free template returns it unchanged. */
  lemma {:induction false} GroundSubstitute(p: Val, b: Bindings)
    requires Vars(p) == {}
    ensures SubstituteVariables(p, b) == Ok(p)
    decreases p
  {
    if p.M? {
      GroundSubstituteAll(p.args, b);
    }
  }

  lemma {:induction false} GroundSubstituteAll(xs: seq<Val>, b: Bindings)
    requires VarsAll(xs) == {}
    ensures SubstituteAll(xs, b) == Ok(xs)
    decreases xs
  {
    if xs != [] {
      GroundSubstitute(xs[0], b);
      GroundSubstituteAll(xs[1..], b);
      assert xs == [xs[0]] + xs[1..];
    }
  }

  /**
   * `apply_projection_deep(t, proj)`: the root if it matches; otherwise, for
   * a Motif, every argument is rewritten deeply on its own and the node is
   * rebuilt when at least one of them changed.
   */
  function ApplyDeep(t: Val, proj: Projection): Result<Option<Val>>
    decreases t, 1
  {
    var root :- ApplyProjection(t, proj);
    if root.Some? then Ok(root)
    else if t.M? then
      var res :- ApplyDeepAll(t.args, proj);
      if res.1 then Ok(Some(M(t.name, res.0))) else Ok(None)
    else Ok(None)
  }

  /** The loop over the arguments: the new arguments and the `changed` flag. */
  function ApplyDeepAll(xs: seq<Val>, proj: Projection): (r: Result<(seq<Val>, bool)>)
    ensures r.Ok? ==> |r.value.0| == |xs|
    decreases xs, 0
  {
    if xs == [] then Ok(([], false))
    else
      var d :- ApplyDeep(xs[0], proj);
      var rest :- ApplyDeepAll(xs[1..], proj);
      Ok(([if d.Some? then d.value else xs[0]] + rest.0, d.Some? || rest.1))
  }

  /** Joins the part of the argument loop already done with the rest of it. */
  function Combine(done: seq<Val>, changed: bool, rest: Result<(seq<Val>, bool)>): Result<(seq<Val>, bool)> {
    if rest.Err? then rest else Ok((done + rest.value.0, changed || rest.value.1))
  }

  lemma {:induction false} CombineStart(all: Result<(seq<Val>, bool)>)
    ensures Combine([], false, all) == all
  {
    assert all.Ok? ==> [] + all.value.0 == all.value.0;
  }

  /** One turn of the argument loop. */
  lemma {:induction false} CombineStep(done: seq<Val>, changed: bool, xs: seq<Val>, proj: Projection)
    requires xs != []
    ensures ApplyDeep(xs[0], proj).Err? ==> Combine(done, changed, ApplyDeepAll(xs, proj)) == Err(ApplyDeep(xs[0], proj).error)
    ensures ApplyDeep(xs[0], proj).Ok? ==>
      var d := ApplyDeep(xs[0], proj).value;
      Combine(done, changed, ApplyDeepAll(xs, proj))
        == Combine(done + [if d.Some? then d.value else xs[0]], changed || d.Some?, ApplyDeepAll(xs[1..], proj))
  {
    if ApplyDeep(xs[0], proj).Ok? {
      var d := ApplyDeep(xs[0], proj).value;
      var x := if d.Some? then d.value else xs[0];
      var rest := ApplyDeepAll(xs[1..], proj);
      if rest.Ok? {
        assert done + ([x] + rest.value.0) == (done + [x]) + rest.value.0;
      }
    }
  }

  method ApplyProjectionDeep(t: Val, proj: Projection) returns (r: Result<Option<Val>>)
    ensures r == ApplyDeep(t, proj)
    decreases t
  {
    var ok, bindings := PatternMatch(t, proj.pattern, map[]);
    if ok {
      var v := SubstituteVariables(proj.target, bindings);
      if v.Err? {
        return Err(v.error);
      }
      return Ok(Some(v.value));
    }
    if t.M? {
      var newArgs: seq<Val> := [];
      var changed := false;
      var i := 0;
      assert t.args[i..] == t.args;
      CombineStart(ApplyDeepAll(t.args, proj));
      while i < |t.args|
        invariant 0 <= i <= |t.args|
        invariant ApplyDeepAll(t.args, proj) == Combine(newArgs, changed, ApplyDeepAll(t.args[i..], proj))
      {
        var d := ApplyProjectionDeep(t.args[i], proj);
        CombineStep(newArgs, changed, t.args[i..], proj);
        assert t.args[i..][0] == t.args[i] && t.args[i..][1..] == t.args[i + 1..];
        if d.Err? {
          return Err(d.error);
        }
        if d.value.Some? {
          newArgs := newArgs + [d.value.value];
          changed := true;
        } else {
          newArgs := newArgs + [t.args[i]];
        }
        i := i + 1;
      }
      assert newArgs + [] == newArgs;
      if changed {
        return Ok(Some(M(t.name, newArgs)));
      }
    }
    return Ok(None);
  }

  /** Some subterm of `t`, at any depth, matches `pat`. */
  ghost predicate MatchesSomewhere(t: Val, pat: Val)
    decreases t
  {
    Match(t, pat, map[]).ok || (t.M? && exists i :: 0 <= i < |t.args| && MatchesSomewhere(t.args[i], pat))
  }

  /** A match at the root rewrites only the root: the result is the instantiated target. */
  lemma {:induction false} DeepRootMatch(t: Val, proj: Projection)
    requires Match(t, proj.pattern, map[]).ok
    ensures ApplyDeep(t, proj) == ApplyProjection(t, proj)
  {
  }

  /**
   * Without a root match, every argument is rewritten independently: the
   * result keeps the name and the arity, an argument that deep-matches is
   * replaced by its rewrite, and the others are kept.
   */
  lemma {:induction false} DeepRewritesEveryChild(t: Val, proj: Projection)
    requires !Match(t, proj.pattern, map[]).ok && t.M?
    requires ApplyDeep(t, proj).Ok? && ApplyDeep(t, proj).value.Some?
    ensures var u := ApplyDeep(t, proj).value.value;
      && u.M? && u.name == t.name && |u.args| == |t.args|
      && forall i :: 0 <= i < |t.args| ==>
           && ApplyDeep(t.args[i], proj).Ok?
           && u.args[i] == (if ApplyDeep(t.args[i], proj).value.Some? then ApplyDeep(t.args[i], proj).value.value else t.args[i])
  {
    ApplyDeepAllPointwise(t.args, proj);
  }

  lemma {:induction false} ApplyDeepAllPointwise(xs: seq<Val>, proj: Projection)
    requires ApplyDeepAll(xs, proj).Ok?
    ensures forall i :: 0 <= i < |xs| ==>
      && ApplyDeep(xs[i], proj).Ok?
      && ApplyDeepAll(xs, proj).value.0[i] == (if ApplyDeep(xs[i], proj).value.Some? then ApplyDeep(xs[i], proj).value.value else xs[i])
    ensures ApplyDeepAll(xs, proj).value.1 <==> exists i :: 0 <= i < |xs| && ApplyDeep(xs[i], proj) == Ok(ApplyDeep(xs[i], proj).value) && ApplyDeep(xs[i], proj).value.Some?
    decreases xs
  {
    if xs != [] {
      ApplyDeepAllPointwise(xs[1..], proj);
      var r := ApplyDeepAll(xs, proj).value;
      var d := ApplyDeep(xs[0], proj).value;
      forall i | 0 <= i < |xs|
        ensures ApplyDeep(xs[i], proj).Ok?
        ensures r.0[i] == (if ApplyDeep(xs[i], proj).value.Some? then ApplyDeep(xs[i], proj).value.value else xs[i])
      {
        if i > 0 {
          assert xs[i] == xs[1..][i - 1];
        }
      }
      if r.1 && !d.Some? {
        var j :| 0 <= j < |xs[1..]| && ApplyDeep(xs[1..][j], proj) == Ok(ApplyDeep(xs[1..][j], proj).value) && ApplyDeep(xs[1..][j], proj).value.Some?;
        assert xs[j + 1] == xs[1..][j];
      }
      if exists i :: 0 <= i < |xs| && ApplyDeep(xs[i], proj) == Ok(ApplyDeep(xs[i], proj).value) && ApplyDeep(xs[i], proj).value.Some? {
        var i :| 0 <= i < |xs| && ApplyDeep(xs[i], proj) == Ok(ApplyDeep(xs[i], proj).value) && ApplyDeep(xs[i], proj).value.Some?;
        if i > 0 {
          assert xs[i] == xs[1..][i - 1];
        }
      }
    }
  }

  /** When it raises nothing, the deep variant returns None iff no subterm at any depth matches. */
  lemma {:induction false} DeepNoneIffNoMatch(t: Val, proj: Projection)
    requires ApplyDeep(t, proj).Ok?
    ensures ApplyDeep(t, proj) == Ok(None) <==> !MatchesSomewhere(t, proj.pattern)
    decreases t
  {
    if !Match(t, proj.pattern, map[]).ok && t.M? {
      ApplyDeepAllPointwise(t.args, proj);
      forall i | 0 <= i < |t.args|
        ensures ApplyDeep(t.args[i], proj) == Ok(None) <==> !MatchesSomewhere(t.args[i], proj.pattern)
      {
        DeepNoneIffNoMatch(t.args[i], proj);
      }
    }
  }
}
