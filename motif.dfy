/**
 * The term algebra of rcx_pi/core/motif.py.
 *
 * A Motif is a labelled node holding a tuple of arguments; a Variable is a
 * named pattern placeholder. Arguments are arbitrary Python values, and the
 * code puts two other kinds there: plain strings (`μ("var", "x")`) and Python
 * lists (the evaluator rebuilds a node as `Motif(name, new_args)` with the list
 * `new_args` as its single argument). `Val` has one constructor per kind.
 * `μ(name, *args)` and `Motif(name, *args)` are both the constructor `M`.
 */
module Motifs {
  import opened Base

  datatype Val =
    | M(name: string, args: seq<Val>)   // Motif(name, *args)
    | V(name: string)                   // Variable(name)
    | Atom(s: string)                   // a Python str
    | Lst(items: seq<Val>)              // a Python list

  /** Python's `a == b` on these values: `Motif.__eq__`, `Variable.__eq__`, `str` and `list` equality. */
  function PyEq(a: Val, b: Val): bool
    decreases a
  {
    match a
    case M(n, xs) => b.M? && n == b.name && PyEqSeq(xs, b.args)
    case V(n) => b.V? && n == b.name
    case Atom(s) => b.Atom? && s == b.s
    case Lst(xs) => b.Lst? && PyEqSeq(xs, b.items)
  }

  /** Tuple and list equality: same length, pairwise equal. */
  function PyEqSeq(xs: seq<Val>, ys: seq<Val>): bool
    decreases xs
  {
    |xs| == |ys| && forall i :: 0 <= i < |xs| ==> PyEq(xs[i], ys[i])
  }

  /**
   * Python's equality is structural equality: two Motifs are equal iff their
   * names are equal and their argument tuples have the same length and are
   * pairwise equal; a Motif never equals a Variable; two Variables are equal
   * iff their names are. The rest of the model therefore writes Python's `==`
   * as Dafny's `==`.
   */
  lemma {:induction false} PyEqIsEquality(a: Val, b: Val)
    ensures PyEq(a, b) <==> a == b
    decreases a
  {
    match a
    case M(n, xs) => if b.M? { PyEqSeqIsEquality(xs, b.args); }
    case V(n) =>
    case Atom(s) =>
    case Lst(xs) => if b.Lst? { PyEqSeqIsEquality(xs, b.items); }
  }

  lemma {:induction false} PyEqSeqIsEquality(xs: seq<Val>, ys: seq<Val>)
    ensures PyEqSeq(xs, ys) <==> xs == ys
    decreases xs
  {
    if |xs| == |ys| {
      forall i | 0 <= i < |xs|
        ensures PyEq(xs[i], ys[i]) <==> xs[i] == ys[i]
      {
        PyEqIsEquality(xs[i], ys[i]);
      }
    }
  }

  /** The Python values that hashing builds: strings and tuples. */
  datatype PyKey = KStr(s: string) | KTuple(items: seq<PyKey>)

  /**
   * The value whose hash each kind returns: `hash((name, args))` for a Motif,
   * `hash(("VAR", name))` for a Variable, the string itself for a str. A list
   * is unhashable, so any Motif holding one raises TypeError.
   */
  function HashKey(v: Val): Result<PyKey>
    decreases v
  {
    match v
    case M(n, xs) =>
      var ks :- HashKeys(xs);
      Ok(KTuple([KStr(n), KTuple(ks)]))
    case V(n) => Ok(KTuple([KStr("VAR"), KStr(n)]))
    case Atom(s) => Ok(KStr(s))
    case Lst(_) => Err(TypeError)
  }

  function HashKeys(xs: seq<Val>): (r: Result<seq<PyKey>>)
    ensures r.Ok? ==> |r.value| == |xs|
    decreases xs
  {
    if xs == [] then Ok([])
    else
      var k :- HashKey(xs[0]);
      var ks :- HashKeys(xs[1..]);
      Ok([k] + ks)
  }

  /**
   * Hashing agrees with equality in both directions: equal values have the
   * same hash key (a function gives one result), and two hashable values with
   * the same key are equal, so a Motif key and a Variable key never collide.
   */
  lemma {:induction false} HashKeyInjective(a: Val, b: Val)
    requires HashKey(a).Ok? && HashKey(b).Ok?
    requires HashKey(a) == HashKey(b)
    ensures a == b
    decreases a
  {
    match a
    case M(n, xs) =>
      HashKeysInjective(xs, b.args);
    case V(n) =>
    case Atom(s) =>
  }

  lemma {:induction false} HashKeysInjective(xs: seq<Val>, ys: seq<Val>)
    requires HashKeys(xs).Ok? && HashKeys(ys).Ok?
    requires HashKeys(xs) == HashKeys(ys)
    ensures xs == ys
    decreases xs
  {
    if xs != [] {
      assert |ys| == |xs|;
      var k, ks := HashKey(xs[0]).value, HashKeys(xs[1..]).value;
      var k', ks' := HashKey(ys[0]).value, HashKeys(ys[1..]).value;
      assert [k] + ks == [k'] + ks';
      assert k == k' && ks == ks' by {
        assert ([k] + ks)[0] == k && ([k'] + ks')[0] == k';
        assert ([k] + ks)[1..] == ks && ([k'] + ks')[1..] == ks';
      }
      HashKeyInjective(xs[0], ys[0]);
      HashKeysInjective(xs[1..], ys[1..]);
      assert xs == [xs[0]] + xs[1..];
      assert ys == [ys[0]] + ys[1..];
    }
  }

  /** A term node rebuilt around a list, as the evaluator builds them, cannot be hashed. */
  lemma {:induction false} RebuiltNodeUnhashable(n: string, xs: seq<Val>)
    ensures HashKey(M(n, [Lst(xs)])) == Err(TypeError)
  {
    assert HashKeys([Lst(xs)]) == Err(TypeError);
  }

  /** Python's `repr` of a str: quoted, with the quote and backslash escaped. */
  function StrRepr(s: string): (r: string)
    ensures |r| >= 2 && r[0] == r[|r| - 1] && (r[0] == '\'' || r[0] == '"')
  {
    var q := if '\'' in s && '"' !in s then '"' else '\'';
    [q] + Escaped(s, q) + [q]
  }

  function Escaped(s: string, q: char): string {
    if s == [] then ""
    else
      var c := s[0];
      (if c == '\\' then "\\\\"
       else if c == q then ['\\', q]
       else if c == '\n' then "\\n"
       else if c == '\r' then "\\r"
       else if c == '\t' then "\\t"
       else [c])
      + Escaped(s[1..], q)
  }

  /**
   * Python's `str(v)`. A Motif has no `__str__`, so this is its `__repr__`:
   * `μ(name)` when nullary, else `μ(name, a1, ..., an)` with each argument
   * shown by `str`. A Variable shows as `$name`, a str as itself, and a list
   * as `[...]` with its elements shown by `repr`.
   */
  function Str(v: Val): (r: string)
    ensures v.M? ==> |r| >= 3 + |v.name| && r[..2] == "μ(" && r[2..2 + |v.name|] == v.name && r[|r| - 1] == ')'
    ensures v.M? && v.args != [] ==> |r| >= 5 + |v.name| && r[2 + |v.name|..4 + |v.name|] == ", "
    ensures v.V? ==> r == "$" + v.name
    ensures v.Lst? ==> |r| >= 2 && r[0] == '[' && r[|r| - 1] == ']'
    decreases v, 0
  {
    match v
    case M(n, xs) =>
      if xs == [] then "μ(" + n + ")" else "μ(" + n + ", " + Join(", ", StrAll(xs)) + ")"
    case V(n) => "$" + n
    case Atom(s) => s
    case Lst(xs) => "[" + Join(", ", ReprAll(xs)) + "]"
  }

  /** Python's `repr(v)`: as `str` except that a str is quoted. */
  function Repr(v: Val): string
    decreases v, 1
  {
    if v.Atom? then StrRepr(v.s) else Str(v)
  }

  function StrAll(xs: seq<Val>): (r: seq<string>)
    ensures |r| == |xs|
    decreases xs, 0
  {
    if xs == [] then [] else [Str(xs[0])] + StrAll(xs[1..])
  }

  function ReprAll(xs: seq<Val>): (r: seq<string>)
    ensures |r| == |xs|
    decreases xs, 0
  {
    if xs == [] then [] else [Repr(xs[0])] + ReprAll(xs[1..])
  }

  /** Python's truth value: objects are true, an empty str or list is false. */
  predicate Truthy(v: Val) {
    match v
    case M(_, _) => true
    case V(_) => true
    case Atom(s) => s != ""
    case Lst(xs) => xs != []
  }

  /** `v.name`: Motifs and Variables have it; a str or a list raises AttributeError. */
  function NameOf(v: Val): (r: Result<string>)
    ensures r.Ok? <==> v.M? || v.V?
    ensures r.Ok? ==> r.value == v.name
    ensures r.Err? ==> r.error == AttributeError
  {
    if v.M? || v.V? then Ok(v.name) else Err(AttributeError)
  }

  /** `v.args[i]` for a non-negative index: AttributeError without `args`, IndexError past the end. */
  function ArgAt(v: Val, i: nat): (r: Result<Val>)
    ensures r.Ok? <==> v.M? && i < |v.args|
    ensures r.Ok? ==> r.value == v.args[i]
    ensures r.Err? ==> r.error == (if v.M? then IndexError else AttributeError)
  {
    if !v.M? then Err(AttributeError) else if i < |v.args| then Ok(v.args[i]) else Err(IndexError)
  }

  /** `v.args`: only Motifs have it. */
  function ArgsOf(v: Val): (r: Result<seq<Val>>)
    ensures r.Ok? <==> v.M?
    ensures r.Ok? ==> r.value == v.args
    ensures r.Err? ==> r.error == AttributeError
  {
    if v.M? then Ok(v.args) else Err(AttributeError)
  }
}
