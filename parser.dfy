/**
 * The text parser of rcx_pi/core/parser.py. A `Parser` holds an optional
 * arithmetic domain, of which it reads only the `variables` table, and an
 * optional lambda domain. `parse_expression` strips the text and tries, in
 * order, the lambda parser, the arithmetic parser, the application parser and
 * the variable lookup, keeping the first truthy result.
 *
 * The call-syntax branches of `parse_arithmetic` and `parse_application` test
 * the pattern `(\w+)\s*$ (.*?) $ `, which needs a space right after the end
 * of the text (or after its final newline) and so never matches: those
 * branches are the constant "no match" here.
 */
module Parsing {
  import opened Base
  import opened Motifs
  import opened LambdaDomains
  import opened Arithmetic

  datatype Parser = Parser(arithmeticVariables: Option<map<string, Val>>, lambda: Option<LambdaDomain>)

  /** The names `parse_lambda` accepts and the key of the lambda domain's table each reads. */
  const LambdaConstants: map<string, string> := map[
    "LTRUE" := "LAMBDA_TRUE",
    "LFALSE" := "LAMBDA_FALSE",
    "I" := "I",
    "K" := "K",
    "S" := "S",
    "Y" := "Y",
    "CZERO" := "CHURCH_ZERO",
    "CONE" := "CHURCH_ONE",
    "CTWO" := "CHURCH_TWO",
    "CTHREE" := "CHURCH_THREE"
  ]

  /** The names `parse_arithmetic` accepts. */
  const ArithmeticConstants: seq<string> := ["ZERO", "ONE", "TWO", "THREE", "FOUR", "FIVE", "SIX"]

  /** `text.startswith('λ') or text.startswith('\\')`. */
  predicate StartsWithLambda(text: string) {
    |text| > 0 && (text[0] == 'λ' || text[0] == '\\')
  }

  /** A lambda-constant name whose key the domain's table lacks: reading it raises KeyError. */
  predicate LambdaConstantMissing(d: LambdaDomain, t: string) {
    t in LambdaConstants && LambdaConstants[t] !in d.variables
  }

  /** An arithmetic-constant name that the arithmetic table lacks. */
  predicate ArithmeticConstantMissing(vars: map<string, Val>, t: string) {
    t in ArithmeticConstants && t !in vars
  }

  /** The stripped text names a constant that some domain of the parser lacks. */
  predicate MissingConstant(p: Parser, t: string) {
    (p.lambda.Some? && LambdaConstantMissing(p.lambda.value, t))
    || (p.arithmeticVariables.Some? && ArithmeticConstantMissing(p.arithmeticVariables.value, t))
  }

  /**
   * `parse_lambda(text)`: nothing without a lambda domain; `λ` or `\` text goes
   * to the domain's own parser; a constant name is read from the domain's table.
   */
  function ParseLambda(p: Parser, text: string): (r: Result<Option<Val>>)
    ensures r.Err? <==> p.lambda.Some? && !StartsWithLambda(Strip(text)) && LambdaConstantMissing(p.lambda.value, Strip(text))
    ensures r.Err? ==> r.error == KeyError
    ensures r.Ok? && r.value.Some? && !StartsWithLambda(Strip(text)) ==>
      p.lambda.Some? && Strip(text) in LambdaConstants && r.value.value == p.lambda.value.variables[LambdaConstants[Strip(text)]]
  {
    if p.lambda.None? then Ok(None)
    else
      var t := Strip(text);
      if StartsWithLambda(t) then Ok(p.lambda.value.parseLambdaExpr(t))
      else if t in LambdaConstants then
        var key := LambdaConstants[t];
        if key in p.lambda.value.variables then Ok(Some(p.lambda.value.variables[key])) else Err(KeyError)
      else Ok(None)
  }

  /** `parse_arithmetic(text)`: a constant name read from the arithmetic table (the text is not stripped here). */
  function ParseArithmetic(p: Parser, text: string): (r: Result<Option<Val>>)
    ensures r.Err? <==> p.arithmeticVariables.Some? && ArithmeticConstantMissing(p.arithmeticVariables.value, text)
    ensures r.Err? ==> r.error == KeyError
    ensures r.Ok? && r.value.Some? ==>
      p.arithmeticVariables.Some? && text in ArithmeticConstants && r.value.value == p.arithmeticVariables.value[text]
  {
    if p.arithmeticVariables.None? then Ok(None)
    else if text in ArithmeticConstants then
      if text in p.arithmeticVariables.value then Ok(Some(p.arithmeticVariables.value[text])) else Err(KeyError)
    else Ok(None)
  }

  /** `parse_application(text)`: its only way to a result is the call-syntax pattern, which never matches. */
  function ParseApplication(p: Parser, text: string): Option<Val> {
    None
  }

  /** `parse_variable(text)`: the arithmetic table, then the lambda table, else a fresh `var` node. */
  function ParseVariable(p: Parser, text: string): Val {
    if p.arithmeticVariables.Some? && text in p.arithmeticVariables.value then p.arithmeticVariables.value[text]
    else if p.lambda.Some? && text in p.lambda.value.variables then p.lambda.value.variables[text]
    else M("var", [Atom(text)])
  }

  /** `parse_expression(text)`. */
  function ParseExpression(p: Parser, text: string): (r: Result<Val>)
    ensures r.Err? ==> r.error == KeyError
  {
    var t := Strip(text);
    var lam :- ParseLambda(p, t);
    if lam.Some? && Truthy(lam.value) then Ok(lam.value)
    else
      var ar :- ParseArithmetic(p, t);
      if ar.Some? && Truthy(ar.value) then Ok(ar.value)
      else
        var app := ParseApplication(p, t);
        if app.Some? && Truthy(app.value) then Ok(app.value)
        else Ok(ParseVariable(p, t))
  }

  /** The table `parse_variable` reads: the lambda domain's, overridden by the arithmetic domain's. */
  function VariableTable(p: Parser): map<string, Val> {
    var lam := if p.lambda.Some? then p.lambda.value.variables else map[];
    var ar := if p.arithmeticVariables.Some? then p.arithmeticVariables.value else map[];
    lam + ar
  }

  /** `parse_variable` is a lookup in the merged table, in which the arithmetic domain wins; unknown names become `var` nodes. */
  lemma {:induction false} ParseVariableIsTableLookup(p: Parser, text: string)
    ensures text in VariableTable(p) ==> ParseVariable(p, text) == VariableTable(p)[text]
    ensures text !in VariableTable(p) ==> ParseVariable(p, text) == M("var", [Atom(text)])
  {
  }

  /** `parse_expression` raises exactly when the stripped text names a constant that its domain's table lacks. */
  lemma {:induction false} ParseExpressionRaisesOnMissingConstant(p: Parser, text: string)
    ensures ParseExpression(p, text).Err? <==> MissingConstant(p, Strip(text))
  {
    var t := Strip(text);
    StripFacts(text);
    StripStripped(Strip(text));
    assert StartsWithLambda(t) ==> t !in ArithmeticConstants && t !in LambdaConstants;
    if p.lambda.Some? && LambdaConstantMissing(p.lambda.value, t) {
      assert ParseLambda(p, t).Err?;
    } else if p.arithmeticVariables.Some? && ArithmeticConstantMissing(p.arithmeticVariables.value, t) {
      assert t !in LambdaConstants;
      assert ParseLambda(p, t) == Ok(None);
      assert ParseArithmetic(p, t).Err?;
    }
  }

  /** With the arithmetic domain's table, each of its seven names parses to its numeral, whatever the lambda domain. */
  lemma {:induction false} ParseArithmeticName(p: Parser, text: string, k: nat)
    requires p.arithmeticVariables == Some(PeanoConstants)
    requires k < |ArithmeticConstants| && Strip(text) == ArithmeticConstants[k]
    ensures ParseExpression(p, text) == Ok(Numeral(k))
  {
    var t := Strip(text);
    PeanoConstantsAreNumerals();
    StripFacts(text);
    StripStripped(Strip(text));
    ArithmeticNameIsNoLambdaName(k);
    assert ParseLambda(p, t) == Ok(None);
    assert ParseArithmetic(p, t) == Ok(Some(Numeral(k)));
  }

  lemma {:induction false} ArithmeticNameIsNoLambdaName(k: nat)
    requires k < |ArithmeticConstants|
    ensures ArithmeticConstants[k] !in LambdaConstants && !StartsWithLambda(ArithmeticConstants[k])
  {
  }

  /**
   * A constant name of the lambda domain is read from its table under the
   * mapped key, ahead of any entry of the same name in either table.
   */
  lemma {:induction false} LambdaConstantComesFirst(p: Parser, text: string)
    requires p.lambda.Some? && Strip(text) in LambdaConstants
    requires LambdaConstants[Strip(text)] in p.lambda.value.variables
    requires Truthy(p.lambda.value.variables[LambdaConstants[Strip(text)]])
    ensures ParseExpression(p, text) == Ok(p.lambda.value.variables[LambdaConstants[Strip(text)]])
  {
    StripFacts(text);
    StripStripped(Strip(text));
    assert !StartsWithLambda(Strip(text));
  }

  /**
   * `λ` or `\` text is handed to the lambda domain's parser; when that finds
   * nothing, the text is looked up as a variable.
   */
  lemma {:induction false} LambdaTextGoesToDomainParser(p: Parser, text: string)
    requires p.lambda.Some? && StartsWithLambda(Strip(text))
    ensures var v := p.lambda.value.parseLambdaExpr(Strip(text));
      ParseExpression(p, text) == if v.Some? && Truthy(v.value) then Ok(v.value) else Ok(ParseVariable(p, Strip(text)))
  {
    StripFacts(text);
    StripStripped(Strip(text));
    assert Strip(text) !in ArithmeticConstants;
  }

  /**
   * Text that names no constant and is not `λ` text is looked up as a
   * variable: in particular call syntax such as `add(ONE, TWO)` is never
   * parsed into a node.
   */
  lemma {:induction false} OtherTextIsVariable(p: Parser, text: string)
    requires !StartsWithLambda(Strip(text)) && Strip(text) !in LambdaConstants && Strip(text) !in ArithmeticConstants
    ensures ParseExpression(p, text) == Ok(ParseVariable(p, Strip(text)))
  {
    StripFacts(text);
    StripStripped(Strip(text));
  }

  lemma {:induction false} CallSyntaxIsAVariable(p: Parser)
    requires p.arithmeticVariables == Some(PeanoConstants)
    requires p.lambda.None? || "add(ONE, TWO)" !in p.lambda.value.variables
    ensures ParseExpression(p, "add(ONE, TWO)") == Ok(M("var", [Atom("add(ONE, TWO)")]))
  {
    var s := "add(ONE, TWO)";
    assert LStrip(s) == s;
    assert RStrip(s) == s;
    assert s !in LambdaConstants && s !in ArithmeticConstants && s !in PeanoConstants;
    OtherTextIsVariable(p, s);
  }

  // ---------------------------------------------------------------------
  // split_args

  /** The loop state of `split_args`: the finished pieces, the piece being read, the parenthesis depth. */
  datatype SplitState = SplitState(args: seq<string>, current: string, depth: int)

  /** One character of the loop: a comma at depth 0 ends a piece; any other character joins the piece, `(` and `)` moving the depth. */
  function StepChar(st: SplitState, c: char): SplitState {
    if c == ',' && st.depth == 0 then SplitState(st.args + [Strip(st.current)], "", st.depth)
    else
      var d := if c == '(' then st.depth + 1 else if c == ')' then st.depth - 1 else st.depth;
      SplitState(st.args, st.current + [c], d)
  }

  /** The loop state after reading all of `text`. */
  function Scan(text: string): SplitState
    decreases |text|
  {
    if text == [] then SplitState([], "", 0) else StepChar(Scan(text[..|text| - 1]), text[|text| - 1])
  }

  /** What `split_args(text)` returns. */
  function SplitArgsOf(text: string): seq<string> {
    if IsBlank(text) then []
    else
      var st := Scan(text);
      st.args + (if Strip(st.current) != [] then [Strip(st.current)] else [])
  }

  /** `split_args(args_text)`: the character loop. */
  method SplitArgs(argsText: string) returns (r: seq<string>)
    ensures r == SplitArgsOf(argsText)
  {
    StripFacts(argsText);
    if Strip(argsText) == [] {
      return [];
    }
    var args: seq<string> := [];
    var current := "";
    var depth := 0;
    var i := 0;
    while i < |argsText|
      invariant 0 <= i <= |argsText|
      invariant Scan(argsText[..i]) == SplitState(args, current, depth)
    {
      var c := argsText[i];
      assert argsText[..i + 1][..i] == argsText[..i];
      if c == ',' && depth == 0 {
        args := args + [Strip(current)];
        current := "";
      } else {
        if c == '(' {
          depth := depth + 1;
        } else if c == ')' {
          depth := depth - 1;
        }
        current := current + [c];
      }
      i := i + 1;
    }
    assert argsText[..|argsText|] == argsText;
    if Strip(current) != [] {
      args := args + [Strip(current)];
    }
    return args;
  }

  /** The parenthesis depth after `text`: its `(` count less its `)` count. */
  function Depth(text: string): int
    decreases |text|
  {
    if text == [] then 0
    else
      var c := text[|text| - 1];
      Depth(text[..|text| - 1]) + (if c == '(' then 1 else if c == ')' then -1 else 0)
  }

  /** The number of commas in `text` at which the depth of the text before them is 0. */
  function TopCommas(text: string): nat
    decreases |text|
  {
    if text == [] then 0
    else
      var init := text[..|text| - 1];
      TopCommas(init) + (if text[|text| - 1] == ',' && Depth(init) == 0 then 1 else 0)
  }

  /** The text after the last comma at depth 0 (all of it when there is none). */
  function LastSegment(text: string): (r: string)
    ensures |r| <= |text|
    decreases |text|
  {
    if text == [] then []
    else
      var init := text[..|text| - 1];
      if text[|text| - 1] == ',' && Depth(init) == 0 then [] else LastSegment(init) + [text[|text| - 1]]
  }

  /** The loop tracks the parenthesis depth of what it has read. */
  lemma {:induction false} ScanDepth(text: string)
    ensures Scan(text).depth == Depth(text)
    decreases |text|
  {
    if text != [] {
      ScanDepth(text[..|text| - 1]);
    }
  }

  /** The loop keeps one finished piece per depth-0 comma, and the piece being read is the last segment. */
  lemma {:induction false} ScanPieces(text: string)
    ensures |Scan(text).args| == TopCommas(text)
    ensures Scan(text).current == LastSegment(text)
    decreases |text|
  {
    if text != [] {
      var init := text[..|text| - 1];
      ScanPieces(init);
      ScanDepth(init);
    }
  }

  /** Every finished piece is stripped. */
  lemma {:induction false} ScanStripped(text: string)
    ensures forall k :: 0 <= k < |Scan(text).args| ==> Stripped(Scan(text).args[k])
    decreases |text|
  {
    if text != [] {
      var init := text[..|text| - 1];
      ScanStripped(init);
      StripFacts(Scan(init).current);
    }
  }

  /** Without a depth-0 comma the last segment is the whole text. */
  lemma {:induction false} NoTopCommaIsOneSegment(text: string)
    requires TopCommas(text) == 0
    ensures LastSegment(text) == text
    decreases |text|
  {
    if text != [] {
      var init := text[..|text| - 1];
      NoTopCommaIsOneSegment(init);
      assert init + [text[|text| - 1]] == text;
    }
  }

  /**
   * `split_args`: blank text gives no pieces; otherwise one piece per
   * depth-0 comma (blank ones kept, as empty strings) and one more for the
   * final segment unless that is blank. Every piece is stripped, and text
   * with no depth-0 comma comes back whole, stripped.
   */
  lemma {:induction false} SplitArgsShape(text: string)
    ensures IsBlank(text) ==> SplitArgsOf(text) == []
    ensures !IsBlank(text) ==> |SplitArgsOf(text)| == TopCommas(text) + (if IsBlank(LastSegment(text)) then 0 else 1)
    ensures forall k :: 0 <= k < |SplitArgsOf(text)| ==> Stripped(SplitArgsOf(text)[k])
    ensures !IsBlank(text) && TopCommas(text) == 0 ==> SplitArgsOf(text) == [Strip(text)]
  {
    if !IsBlank(text) {
      var st := Scan(text);
      ScanPieces(text);
      ScanStripped(text);
      StripFacts(st.current);
      var last := if Strip(st.current) != [] then [Strip(st.current)] else [];
      var pieces := st.args + last;
      assert SplitArgsOf(text) == pieces;
      forall k | 0 <= k < |pieces|
        ensures Stripped(pieces[k])
      {
        if k < |st.args| {
          assert pieces[k] == st.args[k];
        } else {
          assert pieces[k] == Strip(st.current);
        }
      }
      if TopCommas(text) == 0 {
        NoTopCommaIsOneSegment(text);
        assert pieces == [Strip(text)];
      }
    }
  }

  /** One more character is one more step of the loop. */
  lemma {:induction false} ScanSnoc(text: string, c: char, whole: string)
    requires whole == text + [c]
    ensures Scan(whole) == StepChar(Scan(text), c)
  {
    assert whole[..|text|] == text;
  }

  /** A character that is neither whitespace, a comma nor a parenthesis. */
  predicate Plain(c: char) {
    !IsSpace(c) && c != ',' && c != '(' && c != ')'
  }

  lemma {:induction false} ScanNestedCall(f: char, a: char, b: char)
    requires Plain(f) && Plain(a) && Plain(b)
    ensures Scan([f, '(', a, ',', b, ')']) == SplitState([], [f, '(', a, ',', b, ')'], 0)
  {
    ScanSnoc([], f, [f]);
    ScanSnoc([f], '(', [f, '(']);
    ScanSnoc([f, '('], a, [f, '(', a]);
    ScanSnoc([f, '(', a], ',', [f, '(', a, ',']);
    ScanSnoc([f, '(', a, ','], b, [f, '(', a, ',', b]);
    ScanSnoc([f, '(', a, ',', b], ')', [f, '(', a, ',', b, ')']);
  }

  lemma {:induction false} ScanNestedArguments(f: char, a: char, b: char, c: char)
    requires Plain(f) && Plain(a) && Plain(b) && Plain(c)
    ensures var call := [f, '(', a, ',', b, ')'];
      Scan(call + [',', ' ', ',', c]) == SplitState([call, ""], [c], 0)
  {
    var call := [f, '(', a, ',', b, ')'];
    assert Strip(call) == call by {
      StripStripped(call);
    }
    assert Strip(" ") == "";
    ScanNestedCall(f, a, b);
    ScanSnoc(call, ',', call + [',']);
    assert Scan(call + [',']) == SplitState([call], "", 0);
    ScanSnoc(call + [','], ' ', call + [',', ' ']);
    assert Scan(call + [',', ' ']) == SplitState([call], " ", 0);
    ScanSnoc(call + [',', ' '], ',', call + [',', ' ', ',']);
    assert [call] + [""] == [call, ""];
    assert Scan(call + [',', ' ', ',']) == SplitState([call, ""], "", 0);
    ScanSnoc(call + [',', ' ', ','], c, call + [',', ' ', ',', c]);
  }

  /**
   * Commas inside parentheses stay in their piece, and a blank interior piece
   * is kept: `f(a,b), ,c` splits into `f(a,b)`, the empty string and `c`.
   */
  lemma {:induction false} SplitNestedExample(f: char, a: char, b: char, c: char)
    requires Plain(f) && Plain(a) && Plain(b) && Plain(c)
    ensures var call := [f, '(', a, ',', b, ')'];
      SplitArgsOf(call + [',', ' ', ',', c]) == [call, "", [c]]
  {
    var call := [f, '(', a, ',', b, ')'];
    assert !IsBlank(call + [',', ' ', ',', c]) by {
      assert (call + [',', ' ', ',', c])[0] == f;
    }
    assert Strip([c]) == [c];
    ScanNestedArguments(f, a, b, c);
  }

  /** After an unmatched `)` the depth is negative and commas no longer split. */
  lemma {:induction false} SplitUnmatchedCloseExample(a: char, b: char)
    requires Plain(a) && Plain(b)
    ensures SplitArgsOf([')', a, ',', b]) == [[')', a, ',', b]]
  {
    var text := [')', a, ',', b];
    assert !IsBlank(text) by {
      assert !IsSpace(text[0]);
    }
    assert Strip(text) == text by {
      assert text[0] == ')' && text[3] == b;
      StripStripped(text);
    }
    ScanSnoc([], ')', [')']);
    assert Scan([')']) == SplitState([], [')'], -1);
    ScanSnoc([')'], a, [')', a]);
    assert Scan([')', a]) == SplitState([], [')', a], -1);
    ScanSnoc([')', a], ',', [')', a, ',']);
    assert Scan([')', a, ',']) == SplitState([], [')', a, ','], -1);
    ScanSnoc([')', a, ','], b, text);
    assert Scan(text) == SplitState([], text, -1);
  }

  /** A blank final piece is dropped. */
  lemma {:induction false} SplitTrailingBlankExample(a: char)
    requires Plain(a)
    ensures SplitArgsOf([a, ',', ' ']) == [[a]]
  {
    var text := [a, ',', ' '];
    assert !IsBlank(text) by {
      assert !IsSpace(text[0]);
    }
    assert Strip([a]) == [a] by {
      StripStripped([a]);
    }
    assert Strip(" ") == "";
    ScanSnoc([], a, [a]);
    assert Scan([a]) == SplitState([], [a], 0);
    ScanSnoc([a], ',', [a, ',']);
    assert Scan([a, ',']) == SplitState([[a]], "", 0);
    ScanSnoc([a, ','], ' ', text);
    assert Scan(text) == SplitState([[a]], " ", 0);
  }
}
