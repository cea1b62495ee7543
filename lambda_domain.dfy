/**
 * The lambda-calculus domain object that the rule engine and the parser are
 * given. Its implementation (rcx_pi/domains/lambda_calculus.py) is not part of
 * this model; what the two callers use of it is its table of named constants,
 * its ordered list of named rules, and its parser of `λx.body` text.
 */
module LambdaDomains {
  import opened Base
  import opened Motifs

  /** One entry of `lambda_domain.rules`: a name and the rewrite it performs, None when it does not fire. */
  datatype LambdaRule = LambdaRule(name: string, apply: Val -> Option<Val>)

  datatype LambdaDomain = LambdaDomain(
    variables: map<string, Val>,
    rules: seq<LambdaRule>,
    parseLambdaExpr: string -> Option<Val>)
}
