/**
 * The Peano arithmetic domain of rcx_pi/domains/arithmetic.py: numbers are
 * `succ` chains over `zero`, named constants ZERO..SIX, builders for the
 * four node kinds, and the conversions to and from integers.
 */
module Arithmetic {
  import opened Base
  import opened Motifs

  /** The table that `setup_peano_numbers` assigns, written out as the source writes it. */
  const PeanoConstants: map<string, Val> := map[
    "ZERO" := M("zero", []),
    "ONE" := M("succ", [M("zero", [])]),
    "TWO" := M("succ", [M("succ", [M("zero", [])])]),
    "THREE" := M("succ", [M("succ", [M("succ", [M("zero", [])])])]),
    "FOUR" := M("succ", [M("succ", [M("succ", [M("succ", [M("zero", [])])])])]),
    "FIVE" := M("succ", [M("succ", [M("succ", [M("succ", [M("succ", [M("zero", [])])])])])]),
    "SIX" := M("succ", [M("succ", [M("succ", [M("succ", [M("succ", [M("succ", [M("zero", [])])])])])])])
  ]

  class ArithmeticDomain {
    var variables: map<string, Val>

    constructor ()
      ensures variables == PeanoConstants
    {
      variables := map[];
      new;
      SetupPeanoNumbers();
    }

    method SetupPeanoNumbers()
      modifies this`variables
      ensures variables == PeanoConstants
    {
      variables := PeanoConstants;
    }
  }

  /** `add(x, y)`, `mult(x, y)`, `succ(x)` and `zero()` build these nodes. */
  function Add(x: Val, y: Val): Val { M("add", [x, y]) }
  function Mult(x: Val, y: Val): Val { M("mult", [x, y]) }
  function Succ(x: Val): Val { M("succ", [x]) }
  function Zero(): Val { M("zero", []) }

  /** The numeral of `n`: `n` nested `succ` wrappers around `zero`. */
  function Numeral(n: nat): Val {
    if n == 0 then Zero() else Succ(Numeral(n - 1))
  }

  /**
   * `to_number(v)`: `zero` is 0 (whatever its arguments), `succ` is one more
   * than its first argument; anything else, a `succ` without arguments, or a
   * chain ending elsewhere, is None.
   */
  function ToNumber(v: Val): Option<nat> {
    if !v.M? then None
    else if v.name == "zero" then Some(0)
    else if v.name == "succ" && |v.args| > 0 then
      match ToNumber(v.args[0])
      case Some(k) => Some(k + 1)
      case None => None
    else None
  }

  /** `from_number(n)`: None for a negative `n`, else the numeral built by the source's loop. */
  method FromNumber(n: int) returns (r: Option<Val>)
    ensures n < 0 ==> r == None
    ensures n >= 0 ==> r == Some(Numeral(n))
  {
    if n < 0 {
      return None;
    }
    var result := M("zero", []);
    var i := 0;
    while i < n
      invariant 0 <= i <= n
      invariant result == Numeral(i)
    {
      result := M("succ", [result]);
      i := i + 1;
    }
    return Some(result);
  }

  /** Round trip: `to_number(from_number(n)) == n` for every `n >= 0`. */
  lemma {:induction false} ToNumberOfNumeral(n: nat)
    ensures ToNumber(Numeral(n)) == Some(n)
  {
    if n > 0 {
      ToNumberOfNumeral(n - 1);
    }
  }

  /** The canonical numerals: a nullary `zero`, or a unary `succ` of a canonical numeral. */
  predicate IsPeano(v: Val) {
    v.M? && ((v.name == "zero" && v.args == []) || (v.name == "succ" && |v.args| == 1 && IsPeano(v.args[0])))
  }

  /** The other direction: a canonical numeral is the numeral of its value. */
  lemma {:induction false} NumeralOfToNumber(v: Val)
    requires IsPeano(v)
    ensures ToNumber(v).Some? && Numeral(ToNumber(v).value) == v
  {
    if v.name == "succ" {
      NumeralOfToNumber(v.args[0]);
      assert v.args == [v.args[0]];
    }
  }

  /** `to_number` reads only the first argument of a `succ`. */
  lemma {:induction false} ToNumberReadsFirstArgument(x: Val, rest: seq<Val>)
    ensures ToNumber(M("succ", [x] + rest)) == ToNumber(Succ(x))
  {
  }

  /** The named constants are the numerals 0 to 6. */
  lemma {:induction false} PeanoConstantsAreNumerals()
    ensures PeanoConstants.Keys == {"ZERO", "ONE", "TWO", "THREE", "FOUR", "FIVE", "SIX"}
    ensures PeanoConstants["ZERO"] == Numeral(0) && PeanoConstants["ONE"] == Numeral(1)
    ensures PeanoConstants["TWO"] == Numeral(2) && PeanoConstants["THREE"] == Numeral(3)
    ensures PeanoConstants["FOUR"] == Numeral(4) && PeanoConstants["FIVE"] == Numeral(5)
    ensures PeanoConstants["SIX"] == Numeral(6)
  {
  }

  /** The builders give the nodes whose value `to_number` reads: `zero()` is 0 and `succ(x)` one more than `x`. */
  lemma {:induction false} BuildersAgreeWithToNumber(x: Val)
    ensures ToNumber(Zero()) == Some(0)
    ensures ToNumber(Succ(x)) == if ToNumber(x).Some? then Some(ToNumber(x).value + 1) else None
    ensures ToNumber(Add(x, x)) == None && ToNumber(Mult(x, x)) == None
  {
  }
}
