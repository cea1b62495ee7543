# rcx_pi in Dafny

This project models the core of rcx_pi, a term-rewriting playground, and
proves properties of the model. Terms are *motifs*: labelled nodes with a
tuple of arguments, plus named pattern *Variables*. On top of them sit:

- a pattern matcher and instantiator, and projections (pattern/target rewrite rules), applied at the root or deeply;
- a rule engine that rewrites a term at its root, first with the lambda domain's rules and then with four Peano rules, and repeats up to a step bound while recording a trace;
- a one-step evaluator with beta reduction, addition and congruence, run until nothing changes;
- the Peano arithmetic domain and a lambda calculus written as ground motifs with three projections;
- a pretty-printer and a text parser;
- two byte-memory sandboxes. The first grows a memory up to 1 MiB and runs 1024 gates built from five-byte rules. The second has a fixed 64 KiB memory and runs its installed gates, one of which emits an assembly kernel.

One Dafny module stands for each source file: `Motifs`, `Projections`,
`Patterns`, `Rules`, `Evaluation`, `Arithmetic`, `LambdaViaRcx`, `Formatting`,
`Parsing`, `MemorySandbox` and `NativeSandbox`. `Base` holds Python's
exceptions and the string, index and slice helpers. `Bytes` holds the
little-endian integers and the seed format of both sandboxes. `RuleRecords`
holds their common five-byte rule layout. `LambdaDomains` gives the shape of
the lambda-calculus domain that the rule engine and the parser are handed.

Python exceptions are values of a `Result` type. Each operation raises
exactly where the code does: KeyError, IndexError, AttributeError, TypeError,
ValueError, MemoryError and `struct.error`. Loops and in-place updates are
Dafny methods and classes. Each is proved equal to a specification function,
and the properties are lemmas about those functions.

The code does less than one might expect in these places, and the model
follows the code:

- A projection whose target has a Variable missing from its pattern is accepted when built. It raises KeyError only when its pattern matches (`Patterns.UnboundTargetRaises`).
- `apply_projection_deep` rewrites every argument that deep-matches, not only the first site (`Patterns.DeepRewritesEveryChild`).
- `reduce_completely` rewrites only at the root. It does not descend into subterms, so `add(ONE, ZERO)` stops at `succ(add(zero, zero))` (`Rules.AddOneZeroStopsUnderSucc`).
- No code resolves the `substitute(...)` marker that the beta projection produces (`LambdaViaRcx.BetaPatternStopsAtMarker`).
- The evaluator's substitution does no renaming, so it captures variables (`Evaluation.SubstituteCaptures`).
- The evaluator rebuilds a node as `Motif(name, [..])`, with ONE list argument. It never looks inside lists, so such a node is a normal form (`Evaluation.RebuiltNodeIsNormalForm`, `Evaluation.EvaluateAddOneOneIsStuck`).
- The evaluator and the formatter recognise a `lambda` head, while the combinators of lambda_via_rcx.py use `λ`.
- The parser's call-syntax pattern `(\w+)\s*$ (.*?) $ ` never matches. So `add(ONE, TWO)` parses as a variable (`Parsing.CallSyntaxIsAVariable`).

## Model

| member | source | states |
|---|---|---|
| Motifs.PyEqIsEquality | rcx_pi/core/motif.py:8-11 | Python `==` on motifs (same name, equal argument tuples), on Variables (same name), on strings and on lists holds exactly when the two values are equal. |
| Motifs.PyEqSeqIsEquality | rcx_pi/core/motif.py:11 | Tuple equality of argument lists is the same length with pairwise-equal elements, which is sequence equality. |
| Motifs.HashKeyInjective | rcx_pi/core/motif.py:13-14 | Two hashable values with the same hash key `(name, args)` or `("VAR", name)` are equal, so dictionary lookups by these keys behave as lookups by equality. |
| Motifs.HashKeysInjective | rcx_pi/core/motif.py:14 | Argument tuples with equal keys are equal. |
| Motifs.RebuiltNodeUnhashable | rcx_pi/core/motif.py:13-14 | A node whose argument is a Python list cannot be hashed and raises TypeError. |
| Motifs.Str | rcx_pi/core/motif.py:16-20 | `str` of a motif starts with `μ(` and its name, puts `, ` before the arguments when there are any, and ends with `)`. A Variable shows as `$name` and a list is bracketed. |
| Motifs.NameOf | rcx_pi/core/motif.py:4-6 | `.name` exists exactly on motifs and Variables and returns the stored name. Anything else raises AttributeError. |
| Motifs.ArgAt | rcx_pi/core/motif.py:6 | `args[i]` succeeds exactly on a motif with more than `i` arguments. Otherwise it raises IndexError on a motif and AttributeError on anything else. |
| Motifs.ArgsOf | rcx_pi/core/motif.py:6 | `.args` exists exactly on motifs. Anything else raises AttributeError. |
| Projections.ProjectionRepr | rcx_pi/core/projection.py:12-13 | `repr` is `Projection(` then the pattern's `str`, then ` → `, then the target's `str`, then `)`, with exactly that layout and length. |
| Patterns.PatternMatch | rcx_pi/core/patterns.py:5-23 | The recursive matcher with its argument loop returns the same verdict, and leaves the same dictionary, as the specification `Match`. |
| Patterns.MatchExtends | rcx_pi/core/patterns.py:5-23 | Matching never overwrites a binding. It adds only keys of the pattern's Variables, and on success it has bound all of them. |
| Patterns.MatchArgsExtends | rcx_pi/core/patterns.py:19-21 | The same for the loop over argument pairs. |
| Patterns.FailureKeepsEarlierBindings | rcx_pi/core/patterns.py:19-21 | A failed match does not roll back: `f($x, c)` against `f(a, b)` fails and leaves `$x` bound to `a`. |
| Patterns.NonLinearConsistency | rcx_pi/core/patterns.py:8-9 | A repeated Variable must match equal terms: `f($x, $x)` matches `f(a, a)` and does not match `f(a, b)`. |
| Patterns.NameOrArityMismatch | rcx_pi/core/patterns.py:16-17 | Motifs with different names or arities fail to match and bind nothing. |
| Patterns.GroundMatchIsEquality | rcx_pi/core/patterns.py:5-23 | A pattern with no Variables matches exactly the equal term and leaves the bindings unchanged. |
| Patterns.GroundMatchArgsIsEquality | rcx_pi/core/patterns.py:19-23 | The same for argument lists. |
| Patterns.SubstituteDefined | rcx_pi/core/patterns.py:25-36 | Instantiation succeeds exactly when every Variable it reaches is bound. Otherwise it raises KeyError. |
| Patterns.SubstituteAllDefined | rcx_pi/core/patterns.py:32-34 | The same for argument lists. |
| Patterns.MatchThenSubstitute | rcx_pi/core/patterns.py:5-36 | Round trip: a term that matches a pattern is given back by instantiating the pattern with the resulting bindings, or with any dictionary that extends them. |
| Patterns.MatchArgsThenSubstitute | rcx_pi/core/patterns.py:19-34 | The same round trip for argument lists. |
| Patterns.MatchRoundTrip | rcx_pi/core/patterns.py:38-43 | The round trip starting from the empty dictionary, as `apply_projection` does. |
| Patterns.ApplyProjection | rcx_pi/core/patterns.py:38-43 | `apply_projection` returns None exactly when the pattern does not match. |
| Patterns.UnboundTargetRaises | rcx_pi/core/patterns.py:38-43 | On a match, applying a projection raises KeyError exactly when its target has a Variable missing from its pattern. |
| Patterns.GroundProjection | rcx_pi/core/patterns.py:38-43 | A projection without Variables yields its target exactly on a term equal to its pattern, and None elsewhere. |
| Patterns.GroundSubstitute | rcx_pi/core/patterns.py:25-36 | A template without Variables instantiates to itself. |
| Patterns.GroundSubstituteAll | rcx_pi/core/patterns.py:32-34 | The same for argument lists. |
| Patterns.ApplyProjectionDeep | rcx_pi/core/patterns.py:45-68 | The method with its argument loop and `changed` flag computes the specification `ApplyDeep`. |
| Patterns.DeepRootMatch | rcx_pi/core/patterns.py:47-50 | When the root matches, the deep variant is the root rewrite. |
| Patterns.DeepRewritesEveryChild | rcx_pi/core/patterns.py:52-66 | Without a root match, the result keeps the name and arity. Every argument that deep-matches is replaced by its rewrite and every other argument is kept. |
| Patterns.ApplyDeepAllPointwise | rcx_pi/core/patterns.py:55-63 | The argument loop rewrites each argument independently, and `changed` holds exactly when some argument was rewritten. |
| Patterns.DeepNoneIffNoMatch | rcx_pi/core/patterns.py:45-68 | When nothing raises, the deep variant returns None exactly when no subterm at any depth matches. |
| Arithmetic.ArithmeticDomain.constructor | rcx_pi/domains/arithmetic.py:12-14 | A new domain's table is the seven Peano constants. |
| Arithmetic.ArithmeticDomain.SetupPeanoNumbers | rcx_pi/domains/arithmetic.py:16-26 | The table becomes the seven Peano constants. |
| Arithmetic.FromNumber | rcx_pi/domains/arithmetic.py:57-66 | `from_number(n)` is None for negative `n`. Otherwise its loop builds `n` nested `succ` around `zero`. |
| Arithmetic.ToNumberOfNumeral | rcx_pi/domains/arithmetic.py:44-66 | Round trip: `to_number(from_number(n)) == n` for every `n >= 0`. |
| Arithmetic.NumeralOfToNumber | rcx_pi/domains/arithmetic.py:44-55 | The other direction: a canonical numeral is the numeral of its value. |
| Arithmetic.ToNumberReadsFirstArgument | rcx_pi/domains/arithmetic.py:51-53 | `to_number` of a `succ` looks only at its first argument. |
| Arithmetic.PeanoConstantsAreNumerals | rcx_pi/domains/arithmetic.py:18-26 | The table has exactly the keys ZERO to SIX, and each value is the numeral 0 to 6. |
| Arithmetic.BuildersAgreeWithToNumber | rcx_pi/domains/arithmetic.py:28-55 | `zero()` has value 0, `succ(x)` has one more than `x`, and `add`/`mult` nodes have no value. |
| Rules.LambdaEntries | rcx_pi/core/rules.py:30-31 | The lambda domain's rules are appended one entry each, in order. |
| Rules.TryArithmeticIsRuleListInOrder | rcx_pi/core/rules.py:51-107 | `_try_arithmetic_rules` equals trying the four rule methods in their setup order, with the same results and the same exceptions. |
| Rules.ArithmeticRulesAreRootOnly | rcx_pi/core/rules.py:51-81 | A term whose head is neither `add` nor `mult` is never rewritten by the arithmetic rules. |
| Rules.MotifsEqualIsEquality | rcx_pi/core/rules.py:109-117 | `_motifs_equal` coincides with equality. |
| Rules.FirstLambdaIsFirstQualifying | rcx_pi/core/rules.py:36-40 | The lambda loop returns the first rule whose result is truthy and differs from the term, named `λ-<name>`. It returns nothing exactly when no rule qualifies. |
| Rules.LambdaRulesFirst | rcx_pi/core/rules.py:33-49 | When a lambda rule qualifies, the arithmetic rules are not consulted. |
| Rules.ApplyRulesResult | rcx_pi/core/rules.py:33-49 | A rewrite returned by `apply_rules` is truthy. A lambda rewrite also differs from its input. With no domains nothing is rewritten, and with only arithmetic the result is the arithmetic rewrite when that is truthy. |
| Rules.FirstLambdaTruthy | rcx_pi/core/rules.py:37-40 | The lambda loop's result is truthy and differs from the term. |
| Rules.RunTrace | rcx_pi/core/rules.py:119-137 | A reduction takes at most the bound of steps, numbered consecutively. Each step is the `apply_rules` rewrite of its `from` term and starts where the previous one ended. A run that stops early stops at a term no rule rewrites. |
| Rules.RunWithTrace | rcx_pi/core/rules.py:119-137 | For any one-step rewriter, a bounded run takes at most the bound of steps. The steps are numbered consecutively, each is the rewriter's own step on its `from` term, and each starts where the previous one ended. A run that stops early stops where the rewriter gives nothing. |
| Rules.NormalFormIsFixed | rcx_pi/core/rules.py:124-127 | For any one-step rewriter, a term on which it gives nothing is its own result, reached in zero steps. |
| Rules.OneStepThenStop | rcx_pi/core/rules.py:119-137 | A term that rewrites once to a term that no longer rewrites gives exactly that one step, whatever the bound, as long as it is at least 1. |
| Rules.ReduceIsIdempotent | rcx_pi/core/rules.py:119-137 | Reducing the result of a reduction that stopped before its bound gives that result back, with no steps. |
| Rules.PeanoValueExtendsToNumber | rcx_pi/domains/arithmetic.py:44-55 | The arithmetic meaning of terms used for soundness agrees with `to_number` on numerals. |
| Rules.ArithmeticRewritePreservesValue | rcx_pi/core/rules.py:51-81 | Each arithmetic rewrite keeps the arithmetic value of a term that has one. |
| Rules.RunPreservesValue | rcx_pi/core/rules.py:119-137 | With only the arithmetic domain, a whole reduction keeps the value of its input. |
| Rules.AddOneZeroStopsUnderSucc | rcx_pi/core/rules.py:119-137 | `reduce_completely(add(ONE, ZERO))` takes one step to `succ(add(zero, zero))` and stops there. That term has value 1 but is no numeral. |
| Rules.RuleEngine.constructor | rcx_pi/core/rules.py:12-16 | A new engine stores its domains and holds the rule list of `setup_rules`. |
| Rules.RuleEngine.SetupRules | rcx_pi/core/rules.py:18-31 | The list grows by the arithmetic entries when there is an arithmetic domain, then by the lambda domain's entries. |
| Rules.RuleEngine.ApplyRules | rcx_pi/core/rules.py:33-49 | The method with its loop computes the specification `apply_rules`. |
| Rules.RuleEngine.ReduceCompletely | rcx_pi/core/rules.py:119-137 | The loop over `range(1, max_steps + 1)` computes the specification reduction, including its trace. |
| Evaluation.SubstituteArgs | rcx_pi/core/evaluator.py:122-124 | Substitution in an argument list substitutes in each argument. |
| Evaluation.ReduceOnce | rcx_pi/core/evaluator.py:42-92 | The method computes the specification `reduce_once`, including IndexError for `add(x, succ())`. |
| Evaluation.CongruenceLoop | rcx_pi/core/evaluator.py:80-92 | The loop over the arguments, with its `changed` flag, gives the specification congruence step. The node is rebuilt around the list of reduced arguments exactly when one of them changed, and the first error is passed on. |
| Evaluation.Evaluate | rcx_pi/core/evaluator.py:23-40 | The `while True` loop, given fuel, computes the specification evaluation. |
| Evaluation.EvaluateWithSteps | rcx_pi/core/evaluator.py:14-20 | `evaluate_with_steps` returns its input, no steps and success. |
| Evaluation.SubstituteReachesFreeOccurrences | rcx_pi/core/evaluator.py:108-126 | When the variable occurs free, the replacement appears in the result. |
| Evaluation.SubstituteIgnoresReplacementWhenNotFree | rcx_pi/core/evaluator.py:108-126 | Without a free occurrence, the result does not depend on the replacement. |
| Evaluation.SubstituteShadowsAndReplaces | rcx_pi/core/evaluator.py:114-119 | A `lambda` rebinding the variable is returned as is, and a `var` node naming it is replaced. |
| Evaluation.SubstituteCaptures | rcx_pi/core/evaluator.py:94-126 | `(λx.λy.x) y` reduces to `lambda([y, var(y)])`: the free `y` lands under the inner binder `y`, and the node is rebuilt around one list argument. |
| Evaluation.BetaReduceCases | rcx_pi/core/evaluator.py:94-106 | Anything but a `lambda` with two or more arguments is returned unchanged, and `λx.x` applied to `a` gives `a`. |
| Evaluation.AppOfLambdaIsBeta | rcx_pi/core/evaluator.py:48-54 | `app(F, A, ...)` with a `lambda` node `F` reduces in one step to the beta reduction of `F` and `A`. |
| Evaluation.AdditionRecursesOnSecondArgument | rcx_pi/core/evaluator.py:67-77 | `add(x, zero) → x` and `add(x, succ(y)) → succ(add(x, y))`, rebuilt around lists. A nullary `succ` there raises IndexError. |
| Evaluation.ReduceArgsPointwise | rcx_pi/core/evaluator.py:80-87 | The congruence loop reduces each argument once, independently. It succeeds exactly when every argument does. |
| Evaluation.CongruenceWhenNoHeadRule | rcx_pi/core/evaluator.py:79-92 | Without a head rule, the term comes back unchanged exactly when no argument changed. Otherwise it is rebuilt with one list argument holding the reduced arguments. |
| Evaluation.RebuiltNodeIsNormalForm | rcx_pi/core/evaluator.py:79-92 | A node whose only argument is a list is left as it is. |
| Evaluation.ReductionRuleByHead | rcx_pi/core/evaluator.py:128-137 | The rule name depends only on the head of `before`. It is `β-reduction` exactly for `app`, and `reduction` exactly for heads other than `app`, `add` and `mult`. |
| Evaluation.EvalRunTrace | rcx_pi/core/evaluator.py:23-40 | Evaluation stops exactly at a term that `reduce_once` returns unchanged, after at most `fuel` steps. Each step is a genuine reduction of the previous result and is named by `get_reduction_rule`. |
| Evaluation.EvalRunFuelMonotone | rcx_pi/core/evaluator.py:28-38 | More fuel does not change a result already reached. |
| Evaluation.EvaluateAddOneOneIsStuck | rcx_pi/core/evaluator.py:67-92 | `evaluate(add(ONE, ONE))` stops after one step at a term that is no numeral. |
| LambdaViaRcx.LambdaViaRCX.constructor | rcx_pi/domains/lambda_via_rcx.py:13-50 | The combinators, the Church numerals and the three projections are the fixed motifs of the source, and `TRUE` is `K`. |
| LambdaViaRcx.LambdaViaRCX.FirstQualifying | rcx_pi/domains/lambda_via_rcx.py:67-78 | The inner loop returns the first projection, in list order, whose result is truthy and differs from the term. |
| LambdaViaRcx.LambdaViaRCX.ApplyProjections | rcx_pi/domains/lambda_via_rcx.py:60-83 | The nested loops compute the specification `apply_projections`, including its trace. |
| LambdaViaRcx.CombinatorShapes | rcx_pi/domains/lambda_via_rcx.py:15-58 | `K` is `λx.λy.x` written with nullary motifs, `app` and `lambda_abs` build the stated nodes, and the combinators hold no pattern Variable. |
| LambdaViaRcx.ProjectionsFireOnlyOnTheirPattern | rcx_pi/domains/lambda_via_rcx.py:32-50 | Each projection yields its target exactly on a term equal to its pattern, and None elsewhere. |
| LambdaViaRcx.FirstProjectionIsFirstEqualPattern | rcx_pi/domains/lambda_via_rcx.py:67-78 | For Variable-free projections, the inner loop never raises. It picks the first projection whose pattern is the term and whose target is truthy and different, and finds none exactly when no projection is like that. |
| LambdaViaRcx.ProjRunTrace | rcx_pi/domains/lambda_via_rcx.py:60-83 | A run takes at most `max_steps` steps, numbered from 1. Each step is the first qualifying projection of its `from` term, and the steps chain from the input to the result. A run that stops early stops where no projection qualifies. |
| LambdaViaRcx.ProjectionsAreGround | rcx_pi/domains/lambda_via_rcx.py:32-50 | No pattern or target of the three projections holds a pattern Variable. |
| LambdaViaRcx.IdentityOnExampleIsUnchanged | rcx_pi/domains/lambda_via_rcx.py:60-83 | `app(I, μ(example))` comes back unchanged, with no steps. |
| LambdaViaRcx.BetaPatternStopsAtMarker | rcx_pi/domains/lambda_via_rcx.py:34-37 | The beta projection turns its own pattern into the `substitute` marker in one step, after which nothing applies. |
| Formatting.FormatMotif | rcx_pi/utils/formatter.py:15-53 | The only exception is IndexError, and a non-motif prints as its `str`. |
| Formatting.CountSuccessorsIsToNumber | rcx_pi/utils/formatter.py:55-66 | `_count_successors` agrees with `to_number` on every input. |
| Formatting.FormatNumeral | rcx_pi/utils/formatter.py:24-28 | The numeral `n` prints as `ZERO` or `SUCC^n(ZERO)`. |
| Formatting.FormatNonNumeralSucc | rcx_pi/utils/formatter.py:24-29 | A `succ` that is no numeral prints as `succ(<first argument>)`, and raises IndexError when it has no arguments. |
| Formatting.FormatBinaryIgnoresExtraArguments | rcx_pi/utils/formatter.py:31-46 | `add`, `mult` and `app` print as `name(A, B)` from the first two arguments only. `var` prints its first argument's `str`. |
| Formatting.FormatZeroIgnoresArguments | rcx_pi/utils/formatter.py:21-22 | `zero` prints as `ZERO` whatever arguments it has. |
| Formatting.FormatLambda | rcx_pi/utils/formatter.py:40-43 | A `lambda` with at least two arguments prints as `λ<str of its first argument>.<its body>`, ignores any further arguments, and raises only where printing the body does. |
| Formatting.FormatAllPointwise | rcx_pi/utils/formatter.py:52 | Printing the arguments succeeds exactly when every argument prints, and piece `i` is the text of argument `i`, in order. |
| Formatting.FormatDefaultHead | rcx_pi/utils/formatter.py:48-53 | Any other head prints as its bare name when nullary and as `name(a1, ..., an)` otherwise, raising when an argument does. This includes `add`, `mult`, `app` and `lambda` with fewer than two arguments and `var` with none. |
| Formatting.FormatStepLayout | rcx_pi/utils/formatter.py:68-74 | A step prints as `rule: from → to`, raising only where printing a term does. A missing rule reads `unknown` and missing terms print as the empty string. |
| Formatting.EvaluationLinesShape | rcx_pi/utils/formatter.py:76-88 | A report has an Input line first, a `Steps:` header only when there are steps, one numbered line per step in order, and a Result line last. |
| Formatting.StepLinesAt | rcx_pi/utils/formatter.py:83-84 | Step line `j` is `  <i+j>. <format_step(step j)>`. |
| Formatting.AppendStepLines | rcx_pi/utils/formatter.py:81-84 | The `enumerate(steps, 1)` loop appends the numbered step lines, or raises as formatting a step does. |
| Formatting.FormatEvaluationResult | rcx_pi/utils/formatter.py:76-88 | The method builds the specification report, the lines joined by newlines. |
| Parsing.ParseLambda | rcx_pi/core/parser.py:43-71 | It raises exactly when there is a lambda domain, the stripped text is no `λ` or `\` text, and it names a constant whose key the domain's table lacks. The error is KeyError, and a found constant is the table's value. |
| Parsing.ParseArithmetic | rcx_pi/core/parser.py:73-94 | It raises KeyError exactly when the text is a constant name missing from the table. A result is the table's value for that name. |
| Parsing.ParseExpression | rcx_pi/core/parser.py:21-41 | The only exception it raises is KeyError. |
| Parsing.ParseVariableIsTableLookup | rcx_pi/core/parser.py:111-121 | `parse_variable` is a lookup in the merged table, where the arithmetic domain wins. Unknown text becomes `var(text)`. |
| Parsing.ParseExpressionRaisesOnMissingConstant | rcx_pi/core/parser.py:21-41 | `parse_expression` raises exactly when the stripped text names a constant that its domain's table lacks. |
| Parsing.ParseArithmeticName | rcx_pi/core/parser.py:89-92 | With the arithmetic domain, each of its seven names parses to its numeral, whatever the lambda domain. |
| Parsing.LambdaConstantComesFirst | rcx_pi/core/parser.py:25-28 | A lambda constant name reads the domain's table under the mapped key, ahead of any same-named variable. |
| Parsing.LambdaTextGoesToDomainParser | rcx_pi/core/parser.py:50-52 | `λ` or `\` text goes to the domain's parser. When that finds nothing, the text is looked up as a variable. |
| Parsing.OtherTextIsVariable | rcx_pi/core/parser.py:21-41 | Text that is no constant name and no `λ` text parses as the variable lookup of the stripped text. |
| Parsing.CallSyntaxIsAVariable | rcx_pi/core/parser.py:78-87 | `add(ONE, TWO)` parses as the variable `var("add(ONE, TWO)")`. |
| Parsing.SplitArgs | rcx_pi/core/parser.py:123-146 | The character loop computes the specification `split_args`. |
| Parsing.ScanDepth | rcx_pi/core/parser.py:137-140 | The loop's depth is the count of `(` less the count of `)` read so far. |
| Parsing.ScanPieces | rcx_pi/core/parser.py:132-141 | The loop keeps one finished piece per depth-0 comma, and the piece being read is the text after the last such comma. |
| Parsing.ScanStripped | rcx_pi/core/parser.py:133-135 | Every finished piece is stripped. |
| Parsing.SplitArgsShape | rcx_pi/core/parser.py:123-146 | Blank text gives `[]`. Otherwise there is one piece per depth-0 comma, plus one if the final segment is not blank. Every piece is stripped, and text without a depth-0 comma comes back whole. |
| Parsing.SplitNestedExample | rcx_pi/core/parser.py:132-141 | `f(a,b), ,c` splits into `f(a,b)`, the empty string and `c`. |
| Parsing.SplitUnmatchedCloseExample | rcx_pi/core/parser.py:139-140 | After an unmatched `)`, commas no longer split: `)a,b` stays one piece for any plain characters `a` and `b`. |
| Parsing.SplitTrailingBlankExample | rcx_pi/core/parser.py:143-144 | A blank final piece is dropped: `a, ` gives `["a"]` for any plain character `a`. |
| Bytes.DecodeEncode | memory_only_rcx_compliant.py:72 | Decoding the little-endian encoding of a number that fits the width gives the number back. |
| Bytes.EncodeDecode | memory_only_rcx_compliant.py:48 | Encoding a decoded byte string at its own width gives the bytes back. |
| Bytes.SeedLayout | memory_only_rcx_compliant.py:71-72 | A seed is `RCX\0`, then `n` as a u64 that decodes back to `n`, then the first `min(5n, len)` rule bytes, so its length is `12 + min(5n, len)`. A count outside the u64 range raises `struct.error`. |
| RuleRecords.WriteRuleFacts | memory_only_rcx_compliant.py:54 | Writing rule `rid` replaces exactly its five bytes. Its opcode and argument are then the rule's, and every other record is unchanged. |
| RuleRecords.EncodedRule | memory_only_rcx_compliant.py:47-48 | A rule written as an opcode and a little-endian u32 reads back as that opcode and that argument. |
| MemorySandbox.DeltaIsGetThenSet | memory_only_rcx_compliant.py:33-35 | `_delta` is `get_mem` followed by `set_mem` of the flipped byte, and fails where `get_mem` does. |
| MemorySandbox.GrowToFacts | memory_only_rcx_compliant.py:11-16 | `grow_to` raises MemoryError exactly from 2^20 on, and then changes nothing. Otherwise the length becomes at least `pos + 1`, old bytes are kept and new bytes are zero. |
| MemorySandbox.SlotFacts | memory_only_rcx_compliant.py:17-22 | An access raises exactly from 2^20 on or below `-len`, and then changes nothing. A non-negative position under the cap is reached directly. |
| MemorySandbox.SetThenGet | memory_only_rcx_compliant.py:17-22 | After `set_mem(pos, v)`, `get_mem(pos)` returns `v & 0xFF` and no other byte has changed. |
| MemorySandbox.DeltaTwiceRestores | memory_only_rcx_compliant.py:33-35 | `_delta` twice at one address restores every byte. |
| MemorySandbox.FixCountsRepeats | memory_only_rcx_compliant.py:36-43 | A repeated digest at an address counts one more, a first visit counts zero, and other addresses keep their counters. |
| MemorySandbox.MutatedGateReadsRule | memory_only_rcx_compliant.py:46-50 | The rebuilt gate runs the new rule's opcode with the u32 that follows it. |
| MemorySandbox.OpcodeTable | memory_only_rcx_compliant.py:49 | Opcodes 0, 1 and 2 select read, delta and fix. Every other byte selects the no-op. |
| MemorySandbox.DispatchIgnoresStoredParameter | memory_only_rcx_compliant.py:61 | Dispatch passes the rid positionally, so the stored parameter plays no part and the primitive acts at address rid. |
| MemorySandbox.DispatchInRangeSucceeds | memory_only_rcx_compliant.py:61 | Dispatching a rid in 0..1023 never raises. |
| MemorySandbox.RunAdditive | memory_only_rcx_compliant.py:62-67 | `a` iterations followed by `b` iterations are `a + b` iterations. |
| MemorySandbox.BareSweepIsIdentity | memory_only_rcx_compliant.py:65 | While every gate is the initial no-op, a sweep changes nothing. |
| MemorySandbox.BareRunIsIdentity | memory_only_rcx_compliant.py:62-67 | While every gate is the initial no-op, any run changes nothing. |
| MemorySandbox.MemorySpace.constructor | memory_only_rcx_compliant.py:9-10 | A new space is one zero byte. |
| MemorySandbox.MemorySpace.GrowTo | memory_only_rcx_compliant.py:11-16 | The result and the new bytes are those of the specification `grow_to`. |
| MemorySandbox.MemorySpace.GetMem | memory_only_rcx_compliant.py:17-19 | It returns the specification value after growing, with negative indices as Python reads them. |
| MemorySandbox.MemorySpace.SetMem | memory_only_rcx_compliant.py:20-22 | It stores `val & 0xFF` at the grown position, or raises as the access does. |
| MemorySandbox.MemoryOperations.constructor | memory_only_rcx_compliant.py:25-30 | Memory starts as one zero byte, the rules are 5120 zero bytes, all 1024 gates are no-ops, and the log and counters are empty. |
| MemorySandbox.MemoryOperations.NablaR | memory_only_rcx_compliant.py:32 | A read that drops its value and may still grow the memory or raise. |
| MemorySandbox.MemoryOperations.Delta | memory_only_rcx_compliant.py:33-35 | The memory becomes the specification `_delta` of the old memory. |
| MemorySandbox.MemoryOperations.Fix | memory_only_rcx_compliant.py:36-43 | The counters become the specification `_fix` of the old counters. |
| MemorySandbox.MemoryOperations.BuildGateFromRule | memory_only_rcx_compliant.py:46-50 | Gate `rid` becomes the gate of rule `rid`, and no other gate changes. |
| MemorySandbox.MemoryOperations.MutateRule | memory_only_rcx_compliant.py:51-57 | It raises IndexError unless `0 <= rid < 1024`, then ValueError unless the rule has five bytes, and changes nothing when it raises. Otherwise it writes exactly the rule's five bytes, rebuilds gate `rid` and appends one log entry. |
| MemorySandbox.RCXSystem.constructor | memory_only_rcx_compliant.py:60 | A new system holds new operations in their initial state. |
| MemorySandbox.RCXSystem.GateDispatch | memory_only_rcx_compliant.py:61 | The result and the new memory and counters are the specification dispatch, including the IndexError for a rid outside `-1024..1023`. |
| MemorySandbox.RCXSystem.Sweep | memory_only_rcx_compliant.py:65 | The loop dispatches rids 0 to 1023 in order. |
| MemorySandbox.RCXSystem.RunContinuous | memory_only_rcx_compliant.py:62-69 | For a bound, it runs `max(bound, 0)` sweeps, returns that count, and returns the digest of the final memory. |
| MemorySandbox.RCXSystem.EmitSeed | memory_only_rcx_compliant.py:71-72 | The result is the specification seed of the current rule memory. |
| NativeSandbox.DeltaFlipsOneByte | native_generator.py:126-129 | `_delta` XORs the byte at `p mod 65536` with 0xFF, leaves every other byte alone, and undoes itself when applied twice. |
| NativeSandbox.DeltaWrapsAround | native_generator.py:126-134 | Addresses that agree modulo 65536 give the same `_delta` and `_fix`. |
| NativeSandbox.FixReadsItsWindow | native_generator.py:131-134 | `_fix` is below 256 and depends only on the window of up to 16 bytes from `p mod 65536`. |
| NativeSandbox.FixOfZeros | native_generator.py:131-134 | `_fix` on fresh memory is 0 at every address. |
| NativeSandbox.InstalledGateReadsRule | native_generator.py:146-157 | A rebuilt gate holds the new rule's opcode and its u32 argument. Opcodes 1, 2 and 3 select delta, fix and emit, and other bytes select the no-op. |
| NativeSandbox.EmitOnce | native_generator.py:136-141 | `_emit_assembly` stores the kernel and marks completion on the first call only, and changes nothing later. |
| NativeSandbox.DispatchBeyondCount | native_generator.py:166-168 | A rid at or past `rule_count` dispatches nothing, and one in range never raises. A rid below -1024 raises IndexError. |
| NativeSandbox.DispatchIgnoresRid | native_generator.py:154 | A gate acts on its stored argument, whatever rid dispatches it. |
| NativeSandbox.SweepKeepsConsistent | native_generator.py:166-173 | Dispatch keeps the emitted text the kernel once complete and empty before. |
| NativeSandbox.RunKeepsConsistent | native_generator.py:170-178 | Every run keeps that invariant. |
| NativeSandbox.RunAdditive | native_generator.py:170-173 | `a` iterations followed by `b` iterations are `a + b` iterations. |
| NativeSandbox.NativeRulesGates | native_generator.py:192-199 | The three installed rules build delta, fix and emit gates, each with argument 0x3000. |
| NativeSandbox.NativeRunOnce | native_generator.py:186-201 | After one iteration from fresh memory, `memory[0x3000] == 0xFF`, every other byte is zero, the assembly is complete and the emitted text is the kernel. |
| NativeSandbox.NativeEmittingSystem.constructor | native_generator.py:118-124 | Memory is 65536 zero bytes, the rules are 5120 zero bytes, there are no rules, all gates are no-ops and nothing is emitted. |
| NativeSandbox.NativeEmittingSystem.Delta | native_generator.py:126-129 | The memory becomes the specification `_delta` of the old memory. |
| NativeSandbox.NativeEmittingSystem.Fix | native_generator.py:131-134 | It returns the specification `_fix` value and changes nothing. |
| NativeSandbox.NativeEmittingSystem.EmitAssembly | native_generator.py:136-141 | The emitted text and the flag become the specification emit of the old state. |
| NativeSandbox.NativeEmittingSystem.BuildGateFromRule | native_generator.py:146-154 | Gate `rid` becomes the gate of rule `rid`. |
| NativeSandbox.NativeEmittingSystem.InstallRule | native_generator.py:156-160 | It writes exactly the rule's five bytes, rebuilds gate `rid`, and sets `rule_count` to `max(rule_count, rid + 1)`. |
| NativeSandbox.NativeSystem.constructor | native_generator.py:163-164 | A new system holds a new emitting system in its initial state. |
| NativeSandbox.NativeSystem.GateDispatch | native_generator.py:166-168 | The result and the new state are the specification dispatch. |
| NativeSandbox.NativeSystem.RunContinuous | native_generator.py:170-178 | The nested loops run `max(iterations, 0)` sweeps over rids `0..rule_count-1`. It returns the rule count, the completion flag and the assembly length, which is the kernel's length once complete and 0 before. |
| NativeSandbox.NativeSystem.EmitSeed | native_generator.py:180-181 | The result is the specification seed of the current rule memory. |
| NativeSandbox.NativeSystem.GetAssemblyCode | native_generator.py:183-184 | It returns the kernel once an emit gate has run, and the empty string before. |
| NativeSandbox.CreateNativeSystem | native_generator.py:186-201 | The result has `rule_count == 3`, delta, fix and emit gates at rids 0 to 2 with argument 0x3000, all other gates no-op, and fresh memory with nothing emitted. |

## Left out

- rcx_pi_main.py and rcx_pi/interface/repl.py: interactive `input()`/`print` loops, not modelled.
- rcx_pi/domains/lambda_calculus.py is not part of this model. The rule engine and the parser take its table, its rule list and `parse_lambda_expr` as given values (`LambdaDomains.LambdaDomain`). Its rules are total functions there, so an exception inside a lambda rule is not modelled.
- rcx_pi/core/closure.py and the two `__init__.py` files hold no logic.
- The print-only demos of lambda_via_rcx.py (lines 85-124) and the native test harness (native_generator.py lines 203-331: file writes, `nasm`/`ld` calls) are I/O.
- `NativeAssemblyGenerator.generate_kernel` (native_generator.py lines 6-115) builds a fixed text. The model takes that text as the `kernel` parameter of the constructors and does not spell it out.
- The parser's `function_pattern` never matches, so the call branches of `parse_arithmetic` and `parse_application` are modelled as not matching. The `lambda_pattern` field (parser.py line 19) is never used.
- `hashlib.blake2b` is a digest function given to the memory sandbox's constructors. `hash_state` returns the raw 16-byte digest rather than its hex text.
- `time.time()` in `log_divergence` is the timestamp argument `now` of `MutateRule`. It is a float in Python; the log stores it as an `int`, since no property depends on its value (floating point is not modelled).
- `run_continuous(None)` in the memory sandbox never halts. Only the bounded form is modelled.
- `emit_full_seed` only forwards to `emit_seed` and has no member of its own.
- Python hash values are left out. The model keeps only the key that `__hash__` hashes, and that equal keys mean equal values.
- `Motifs.Str`: the escaping of strings inside lists covers quotes, backslash, newline, carriage return and tab, not the other non-printable characters Python escapes. Motif names are strings.
- Evaluation.Evaluate: the source's `while True` loop is given a fuel bound, and the result is None when the fuel runs out. Termination is not claimed.
- `Evaluator.__init__` stores a `rule_engine` that no method reads, so the evaluator's operations are plain functions.
- Patterns.PatternMatch: the bindings dictionary is passed and returned as a value. Aliasing of that dictionary between callers is not modelled.
- MemorySandbox.MemoryOperations.BuildGateFromRule: requires `0 <= rid < 1024`, the only rids its one caller `mutate_rule` passes. The negative rids that Python's indexing would also accept are not modelled.
- NativeSandbox.NativeEmittingSystem.InstallRule: requires `0 <= rid < 1024` and a five-byte rule. Python would resize the rule memory or index from the end for other arguments.
- NativeSandbox.NativeEmittingSystem.BuildGateFromRule: requires `0 <= rid < 1024`, as its caller `install_rule` passes.
- The `wait` local of `_fix` (memory_only_rcx_compliant.py line 38) is never used.
