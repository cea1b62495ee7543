/**
 * The rewrite rule of rcx_pi/core/projection.py: a pattern and a target.
 * `Projection.apply(m)` is one line, `apply_projection(m, self)`; it is
 * modelled by `Patterns.ApplyProjection`.
 */
module Projections {
  import opened Motifs

  /**
   * The constructor stores pattern and target as given. It does not check
   * that the target's variables occur in the pattern: such a rule is only
   * detected when it is applied (see `Patterns.UnboundTargetRaises`).
   */
  datatype Projection = Projection(pattern: Val, target: Val)

  /** `repr(p)`: `Projection(<pattern> → <target>)`, each side shown by `str`. */
  function ProjectionRepr(p: Projection): (r: string)
    ensures |r| == 15 + |Str(p.pattern)| + |Str(p.target)|
    ensures r[..11] == "Projection(" && r[|r| - 1] == ')'
    ensures r[11..11 + |Str(p.pattern)|] == Str(p.pattern)
    ensures r[11 + |Str(p.pattern)|..14 + |Str(p.pattern)|] == " → "
    ensures r[14 + |Str(p.pattern)|..|r| - 1] == Str(p.target)
  {
    "Projection(" + Str(p.pattern) + " → " + Str(p.target) + ")"
  }
}
